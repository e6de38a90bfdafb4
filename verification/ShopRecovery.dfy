/**
 Refunds that stop half-way and are tried again: a user's cancel of a paid order, and an
 admin's refund of a paid or later one. Here one operation runs at a time.
 */
module ShopRecovery {
  import opened Wrappers
  import opened Stock
  import opened ShopState
  import opened Operations
  import opened ShopInvariant

  /** As many steps of one operation as there are flags; a flag says whether the step's statement or call succeeds. */
  function Solo(k: nat, op: Op, db: Db, oks: seq<bool>): Moved
    decreases oks
  {
    if oks == [] then Moved(op, db)
    else
      var m := Next(k, op, db, oks[0]);
      Solo(k, m.op, m.db, oks[1..])
  }

  predicate AllOk(oks: seq<bool>) {
    forall n :: 0 <= n < |oks| ==> oks[n]
  }

  /** How many steps succeed before the first one that fails or never comes. */
  function Lead(oks: seq<bool>): nat {
    if oks == [] || !oks[0] then 0 else 1 + Lead(oks[1..])
  }

  lemma {:induction false} LeadOfAll(oks: seq<bool>)
    requires AllOk(oks)
    ensures Lead(oks) == |oks|
  {
    if oks != [] { LeadOfAll(oks[1..]); }
  }

  lemma {:induction false} DoneStays(k: nat, db: Db, oks: seq<bool>)
    ensures Solo(k, Done, db, oks) == Moved(Done, db)
  {
    if oks != [] { DoneStays(k, db, oks[1..]); }
  }

  lemma {:induction false} SoloKeeps(k: nat, op: Op, db: Db, oks: seq<bool>)
    requires DbInv(db) && OpInv(k, op, db)
    ensures DbInv(Solo(k, op, db, oks).db) && OpInv(k, Solo(k, op, db, oks).op, Solo(k, op, db, oks).db)
    decreases oks
  {
    hide DbInv, OpInv;
    if oks != [] {
      StepKeeps(k, op, db, oks[0]);
      var m := Next(k, op, db, oks[0]);
      SoloKeeps(k, m.op, m.db, oks[1..]);
    }
  }

  // ---------- refunding an order ----------

  /** The checkpoints of a refund: nothing done, charge refunded, row marked, order released. */
  function Checkpoint(db: Db, o: nat, p: nat, stage: nat): Db
    requires o < |db.orders| && p < |db.payments|
  {
    if stage == 0 then db
    else if stage == 1 then RefundCharge(db, p)
    else if stage == 2 then SetPayment(RefundCharge(db, p), p, RefundedPayment)
    else ReleaseOrder(SetPayment(RefundCharge(db, p), p, RefundedPayment), o, RefundedOrder, db.orders[o].items)
  }

  /** The checkpoint an attempt reaches from another one, by how many of its steps succeed. */
  function Reached(stage: nat, lead: nat): nat {
    if stage >= 3 then 3
    else if stage == 2 then (if lead >= 4 then 3 else 2)
    else if lead >= 6 then 3
    else if lead >= 4 then 2
    else if lead == 3 then 1
    else stage
  }

  /** An order past payment whose newest payment row is the charged one. */
  predicate RefundReady(db: Db, o: nat, p: nat) {
    && DbInv(db) && o < |db.orders| && PostPayment(db.orders[o].status)
    && Latest(db.payments, o) == Some(p) && db.payments[p].status == Succeeded
  }

  /** A user's cancel of a paid order, or an admin's refund. */
  predicate Starts(start: Op, db: Db, o: nat) {
    || start == RefundStart(o)
    || (start == CancelStart(o) && o < |db.orders| && db.orders[o].status == Paid)
  }

  lemma {:induction false} LatestIgnoresStatus(payments: seq<Payment>, p: nat, st: PaymentStatus, o: nat)
    requires p < |payments|
    ensures Latest(payments[p := payments[p].(status := st)], o) == Latest(payments, o)
  {
    var n := |payments| - 1;
    var changed := payments[p := payments[p].(status := st)];
    if p == n {
      assert changed[..n] == payments[..n];
    } else {
      assert changed[..n] == payments[..n][p := payments[p].(status := st)];
      LatestIgnoresStatus(payments[..n], p, st, o);
    }
  }

  lemma ReadyCharge(db: Db, o: nat, p: nat)
    requires RefundReady(db, o, p)
    ensures p < |db.payments| && db.payments[p].order == o && db.payments[p].intent < |db.intents|
    ensures RefundAccepted(db, p) && RefundAccepted(Checkpoint(db, o, p, 1), p)
  {
    assert PaymentOk(db, p);
    assert forall q :: q in db.refunds ==> RefundOk(db, q);
  }

  /** A failing step of a refund ends the attempt and changes nothing. */
  lemma RefundFails(k: nat, op: Op, db: Db, oks: seq<bool>)
    requires oks != [] && !oks[0]
    requires op.CancelStart? || op.RefundStart? || OnRefund(op) || op.ReadItems? || op.Release?
    ensures Solo(k, op, db, oks) == Moved(Done, db)
  {
    assert Next(k, op, db, false) == Moved(Done, db);
    DoneStays(k, db, oks[1..]);
  }

  lemma ReleasePart(k: nat, db: Db, o: nat, p: nat, oks: seq<bool>)
    requires RefundReady(db, o, p)
    ensures var from := db.orders[o].status;
            var m := Solo(k, Release(o, db.orders[o].items, from, RefundedOrder, ByRefund(p)), Checkpoint(db, o, p, 2), oks);
            m.db == Checkpoint(db, o, p, if Lead(oks) >= 1 then 3 else 2) && (oks != [] ==> m.op == Done)
  {
    var op := Release(o, db.orders[o].items, db.orders[o].status, RefundedOrder, ByRefund(p));
    if oks != [] {
      if oks[0] {
        DoneStays(k, Checkpoint(db, o, p, 3), oks[1..]);
      } else {
        RefundFails(k, op, Checkpoint(db, o, p, 2), oks);
      }
    }
  }

  lemma ItemsPart(k: nat, db: Db, o: nat, p: nat, oks: seq<bool>)
    requires RefundReady(db, o, p)
    ensures var m := Solo(k, ReadItems(o, db.orders[o].status, RefundedOrder, ByRefund(p)), Checkpoint(db, o, p, 2), oks);
            m.db == Checkpoint(db, o, p, if Lead(oks) >= 2 then 3 else 2) && (|oks| >= 2 ==> m.op == Done)
  {
    hide DbInv, NextSucceeded, NextFailed, NextReconcile, NextReap, NextIntent;
    var op := ReadItems(o, db.orders[o].status, RefundedOrder, ByRefund(p));
    if oks != [] {
      if oks[0] {
        ReleasePart(k, db, o, p, oks[1..]);
      } else {
        RefundFails(k, op, Checkpoint(db, o, p, 2), oks);
      }
    }
  }

  lemma MarkPart(k: nat, db: Db, o: nat, p: nat, oks: seq<bool>)
    requires RefundReady(db, o, p)
    ensures var m := Solo(k, RefundMark(o, p, ThenRelease(db.orders[o].status)), Checkpoint(db, o, p, 1), oks);
            && m.db == Checkpoint(db, o, p, if Lead(oks) >= 3 then 3 else if Lead(oks) >= 1 then 2 else 1)
            && (|oks| >= 3 ==> m.op == Done)
  {
    hide DbInv, NextSucceeded, NextFailed, NextReconcile, NextReap, NextIntent;
    var op := RefundMark(o, p, ThenRelease(db.orders[o].status));
    if oks != [] {
      if oks[0] {
        ItemsPart(k, db, o, p, oks[1..]);
      } else {
        RefundFails(k, op, Checkpoint(db, o, p, 1), oks);
      }
    }
  }

  lemma CallPart(k: nat, db: Db, o: nat, p: nat, stage: nat, oks: seq<bool>)
    requires RefundReady(db, o, p) && stage <= 1
    ensures var m := Solo(k, RefundCall(o, p, ThenRelease(db.orders[o].status)), Checkpoint(db, o, p, stage), oks);
            && m.db == Checkpoint(db, o, p, Reached(stage, Lead(oks) + 2))
            && (|oks| >= 4 ==> m.op == Done)
  {
    hide DbInv, NextSucceeded, NextFailed, NextReconcile, NextReap, NextIntent;
    var op := RefundCall(o, p, ThenRelease(db.orders[o].status));
    ReadyCharge(db, o, p);
    if oks != [] {
      if oks[0] {
        MarkPart(k, db, o, p, oks[1..]);
      } else {
        RefundFails(k, op, Checkpoint(db, o, p, stage), oks);
      }
    }
  }

  lemma ReadPart(k: nat, db: Db, o: nat, p: nat, stage: nat, oks: seq<bool>)
    requires RefundReady(db, o, p) && stage <= 2
    ensures var m := Solo(k, RefundRead(o, ThenRelease(db.orders[o].status)), Checkpoint(db, o, p, stage), oks);
            && m.db == Checkpoint(db, o, p, Reached(stage, Lead(oks) + 1))
            && (|oks| >= 5 ==> m.op == Done)
  {
    hide DbInv, NextOrder, NextRelease, NextSucceeded, NextFailed, NextReconcile, NextReap, NextIntent;
    var op := RefundRead(o, ThenRelease(db.orders[o].status));
    LatestIgnoresStatus(db.payments, p, RefundedPayment, o);
    if oks != [] {
      if !oks[0] {
        RefundFails(k, op, Checkpoint(db, o, p, stage), oks);
      } else if stage == 2 {
        ItemsPart(k, db, o, p, oks[1..]);
      } else {
        CallPart(k, db, o, p, stage, oks[1..]);
      }
    }
  }

  /** The first step reads the order: it admits the request, or finds the order released. */
  lemma StartPart(k: nat, start: Op, db: Db, o: nat, p: nat, stage: nat)
    requires o < |db.orders| && p < |db.payments| && PostPayment(db.orders[o].status) && Starts(start, db, o) && stage <= 3
    ensures var at := Checkpoint(db, o, p, stage);
            Next(k, start, at, true)
              == Moved(if stage == 3 then Done else RefundRead(o, ThenRelease(db.orders[o].status)), at)
  {
  }

  /**
   One attempt from any checkpoint, with failures and stops anywhere: it reaches exactly
   the checkpoint that the number of its successful steps allows.
   */
  lemma AttemptExact(k: nat, start: Op, db: Db, o: nat, p: nat, stage: nat, oks: seq<bool>)
    requires RefundReady(db, o, p) && Starts(start, db, o) && stage <= 3
    ensures var m := Solo(k, start, Checkpoint(db, o, p, stage), oks);
            && m.db == Checkpoint(db, o, p, Reached(stage, Lead(oks)))
            && (|oks| >= 6 ==> m.op == Done)
  {
    hide DbInv, Latest, Next, Checkpoint;
    var at := Checkpoint(db, o, p, stage);
    if oks != [] {
      StartPart(k, start, db, o, p, stage);
      if !oks[0] {
        RefundFails(k, start, at, oks);
      } else if stage == 3 {
        DoneStays(k, at, oks[1..]);
      } else {
        ReadPart(k, db, o, p, stage, oks[1..]);
      }
    }
  }

  /** A sequence of attempts at the same refund, each stopped or failing wherever its flags say. */
  function Attempts(k: nat, start: Op, db: Db, attempts: seq<seq<bool>>): Db {
    if attempts == [] then db
    else Solo(k, start, Attempts(k, start, db, attempts[..|attempts| - 1]), attempts[|attempts| - 1]).db
  }

  lemma {:induction false} AttemptsReachCheckpoint(k: nat, start: Op, db: Db, o: nat, p: nat, attempts: seq<seq<bool>>)
    requires RefundReady(db, o, p) && Starts(start, db, o)
    ensures exists s :: 0 <= s <= 3 && Attempts(k, start, db, attempts) == Checkpoint(db, o, p, s)
  {
    hide DbInv, Latest, Solo, Lead;
    if attempts == [] {
      assert Attempts(k, start, db, attempts) == Checkpoint(db, o, p, 0);
    } else {
      var front, last := attempts[..|attempts| - 1], attempts[|attempts| - 1];
      AttemptsReachCheckpoint(k, start, db, o, p, front);
      var s :| 0 <= s <= 3 && Attempts(k, start, db, front) == Checkpoint(db, o, p, s);
      AttemptExact(k, start, db, o, p, s, last);
      assert Attempts(k, start, db, attempts) == Checkpoint(db, o, p, Reached(s, Lead(last)));
    }
  }

  /**
   However often a cancel or an admin refund was stopped or failed before, one
   undisturbed attempt ends with the order refunded, one Stripe refund of its charge, its
   row marked and its items back in stock once: exactly the state a single undisturbed
   attempt reaches.
   */
  lemma RefundConverges(k: nat, start: Op, db: Db, o: nat, p: nat, attempts: seq<seq<bool>>, oks: seq<bool>)
    requires RefundReady(db, o, p) && Starts(start, db, o) && AllOk(oks) && |oks| >= 6
    ensures p < |db.payments|
    ensures var m := Solo(k, start, Attempts(k, start, db, attempts), oks);
            && m.op == Done
            && m.db == db.(
                 products := Restock(db.products, db.orders[o].items),
                 orders := db.orders[o := Order(db.orders[o].items, RefundedOrder)],
                 payments := db.payments[p := db.payments[p].(status := RefundedPayment)],
                 refunds := db.refunds[p := db.payments[p].intent])
  {
    hide Latest, Restock, Solo;
    AttemptsReachCheckpoint(k, start, db, o, p, attempts);
    var s :| 0 <= s <= 3 && Attempts(k, start, db, attempts) == Checkpoint(db, o, p, s);
    AttemptExact(k, start, db, o, p, s, oks);
    LeadOfAll(oks);
    if p in db.refunds {
      assert RefundOk(db, p);
      assert db.refunds[p := db.payments[p].intent] == db.refunds;
    }
  }

  /** An attempt whose newest row already says refunded goes on to the release. */
  lemma AlreadyRefunded(k: nat, start: Op, db: Db, o: nat, p: nat, oks: seq<bool>)
    requires DbInv(db) && o < |db.orders| && PostPayment(db.orders[o].status) && Starts(start, db, o)
    requires Latest(db.payments, o) == Some(p) && db.payments[p].status == RefundedPayment && AllOk(oks) && |oks| >= 4
    ensures Solo(k, start, db, oks) == Moved(Done, ReleaseOrder(db, o, RefundedOrder, db.orders[o].items))
  {
    hide DbInv, NextRelease, NextSucceeded, NextFailed, NextReconcile, NextReap, NextIntent;
    var from := db.orders[o].status;
    assert Solo(k, start, db, oks) == Solo(k, RefundRead(o, ThenRelease(from)), db, oks[1..])
        == Solo(k, ReadItems(o, from, RefundedOrder, ByRefund(p)), db, oks[1..][1..]);
    ItemsAndRelease(k, db, o, p, oks[1..][1..]);
  }

  lemma ItemsAndRelease(k: nat, db: Db, o: nat, p: nat, oks: seq<bool>)
    requires o < |db.orders| && AllOk(oks) && |oks| >= 2
    ensures Solo(k, ReadItems(o, db.orders[o].status, RefundedOrder, ByRefund(p)), db, oks)
         == Moved(Done, ReleaseOrder(db, o, RefundedOrder, db.orders[o].items))
  {
    hide NextRefund, NextSucceeded, NextFailed, NextReconcile, NextReap, NextIntent;
    var release := Release(o, db.orders[o].items, db.orders[o].status, RefundedOrder, ByRefund(p));
    assert Solo(k, ReadItems(o, db.orders[o].status, RefundedOrder, ByRefund(p)), db, oks) == Solo(k, release, db, oks[1..]);
    DoneStays(k, NextRelease(release, db, true).db, oks[1..][1..]);
  }

  lemma NotRefundable(k: nat, start: Op, db: Db, o: nat, oks: seq<bool>)
    requires o < |db.orders| && PostPayment(db.orders[o].status) && Starts(start, db, o) && AllOk(oks) && |oks| >= 2
    requires var row := Latest(db.payments, o);
             row.Some? ==> db.payments[row.value].status != Succeeded && db.payments[row.value].status != RefundedPayment
    ensures Solo(k, start, db, oks) == Moved(Done, db)
  {
    hide NextSucceeded, NextFailed, NextReconcile, NextReap, NextIntent;
    assert Solo(k, start, db, oks) == Solo(k, RefundRead(o, ThenRelease(db.orders[o].status)), db, oks[1..]);
    DoneStays(k, db, oks[1..][1..]);
  }

  /**
   An undisturbed cancel of a paid order, or refund of a paid or later one, succeeds
   exactly when its newest row is charged or already refunded.
   */
  lemma RefundSucceedsIff(k: nat, start: Op, db: Db, o: nat, oks: seq<bool>)
    requires DbInv(db) && o < |db.orders| && PostPayment(db.orders[o].status) && Starts(start, db, o)
    requires AllOk(oks) && |oks| >= 6
    ensures var latest := Latest(db.payments, o);
            var db' := Solo(k, start, db, oks).db;
            o < |db'.orders| && (db'.orders[o].status == RefundedOrder
            <==> latest.Some? && (db.payments[latest.value].status == Succeeded
                                  || db.payments[latest.value].status == RefundedPayment))
  {
    hide DbInv, Solo, Latest, Restock;
    var latest := Latest(db.payments, o);
    if latest.Some? && db.payments[latest.value].status == Succeeded {
      assert Attempts(k, start, db, []) == db;
      RefundConverges(k, start, db, o, latest.value, [], oks);
    } else if latest.Some? && db.payments[latest.value].status == RefundedPayment {
      AlreadyRefunded(k, start, db, o, latest.value, oks);
    } else {
      NotRefundable(k, start, db, o, oks);
    }
  }
}
