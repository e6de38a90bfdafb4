# Verification of the shop's core protocols

This project models the hardest parts of the Stora e-commerce backend (Go) and of its
category admin page (TypeScript), and proves what they promise:

- **Orders, payments and stock.** Checkout reserves stock in one transaction. After that
  user cancels, admin edits and refunds, Stripe webhooks, reconciles and the
  abandoned-checkout reaper move the order through eight statuses. Each of them is a
  sequence of separate steps (read a row, call Stripe, read the items, run a
  compare-and-set transaction), and any other request may run between two steps.
- **Row locks.** Why a checkout or release transaction may be treated as one step.
- **The Redis token bucket**, with its window bound and its key expiry.
- **The category forest**: building it from parent ids, recovering parents and
  descendants from it, and moving a category without losing others.
- **Recommendations**: weights, scores, the stable sort and the capped greedy pick.
- **Refresh-token rotation** with reuse detection (the scheme of section 4.14.2 of
  RFC 9700).
- **Cart merge** with stock capping.

`dafny verify dfyconfig.toml` checks everything.

## How the order protocol is modelled

`ShopState` holds the tables, the part of Stripe the shop talks to, and every atomic
change: one statement, one transaction or one Stripe call each. `Operations` gives each
actor a program counter with the values it has read so far; `Next` is one step, and
`RunAll` runs any list of events: a request arrives, an operation takes a step, Stripe
moves an intent. A step whose statement or call fails changes nothing and takes the branch
the source takes then; an operation whose process dies is one that gets no further step.
So every theorem about runs covers every failure and every stop point. A request for an
intent carries a whole reconcile inside it (`IntentFirst`), because reading a pending order
reconciles it first.

`ShopInvariant` proves what each step keeps and `ShopTheorems` what follows for whole runs.
`ShopRecovery`, `ShopDelivery`, `ShopOrphans` and `ShopIntents` say what repeated and
undisturbed operations come to, `ShopOutcomes` what each kind of request comes to, status
by status and field by field, when nothing disturbs it. `ShopSeries`, `ShopCounts` and
`ShopReopening` say how often any series of them counts the revenue of a payment, and
`ShopOverlap` how often overlapping ones do. `ShopScenarios` gives concrete runs in which a
promise fails.

`ShopServices.Shop` is the program itself: the tables are fields, and the service and
repository methods read and overwrite them, with loops where the source has loops. A
ghost log records the protocol steps a method takes. `Valid` says that the tables are
exactly what the protocol makes of the log, so a theorem about runs is a theorem about
these methods: a body that swapped two writes, skipped one or took the wrong branch
would no longer reach the state of its step. `Finished(k, request)` says that the call was
operation `k`, that it came from this request, and that it ran to its end; `Hit` says that its
last step is the one that makes the request succeed, and the methods' answers are tied to it
in both directions. `Interfere` stands for everybody else and is used only through its
contract. `AuthServices.Auth` and `RefreshTokens` are related in the same way.

Sequences are folded from their last element, rows are numbered in the order they were
inserted, and time appears only as that order, except in the token bucket and for token
expiry.

## Where the code does not keep a promise

- A forward admin edit starts from whatever status it read, so it can move a cancelled,
  refunded or failed order forward. Stock is conserved exactly for the runs without such
  an edit (`StockConservedIff`, `ForwardEditLeaks`).
- The reaper takes any answer but "succeeded" and "processing" after a refused void as
  dead. A charge that fails between the two calls leaves a payable intent behind. The
  intent of a reaped order is safe in every continuation exactly when it is canceled at
  Stripe by then (`ReaperSafetyIff`), one that is not was misjudged, and that happens
  exactly when a canceller had its void refused and then saw the intent payable
  (`MisjudgedIff`); `ReapedOrderIsCharged` is a run.
- A failed event that arrives late overwrites a succeeded row; the paid order can then
  not be refunded, because a refund needs its newest row to be succeeded
  (`RefundSucceedsIff`, `LateFailureHidesCharge`).
- The revenue of a payment is not always counted once. With requests of every kind one at a
  time it is counted exactly once for each delivery that finds the row not succeeded and
  the order not dead, and for each reconcile, reap or request for an intent that finds the
  newest row pending and its intent charged (`AnnouncementsExact`). With failures and stops
  anywhere it is counted at most once more for each reopening (`AnnouncementsBounded`). A
  payment is reopened by a failed event that overwrites the succeeded row of a live order,
  by a cancel or refund that stops between marking the row and releasing the order, by an
  admin edit that moves its dead order forward while its row does not say succeeded, and by
  nothing else (`ReopensIff`); so a failed event, or a refund and a forward edit, make the
  next delivery count it again with nothing disturbed (`LateFailureAnnouncesAgain`,
  `EditAnnouncesAgain`).
- When deliveries and reconciles of one payment overlap, however many and in whatever
  interleaving, it is counted once for each that passed its check, unless that one is lost
  to a failed statement (`OverlapExact`, `AnnouncedOnceIff`;
  `OverlappingDeliveriesAnnounceTwice` is a run with two). On a dead order none of them
  counts it (`DeadAnnouncesNothing`).
- The comment at internal/payments/service.go:358-364 says that a row becomes succeeded only
  when everything else is done. For a charge on a dead order it becomes succeeded before the
  refund (lines 380-384), and the refund goes through the newest row. So an undisturbed
  delivery refunds its row exactly when the row did not say succeeded yet and is the newest
  of its order (`AutoRefundIff`, `OlderChargeIsNotRefunded`). After deliveries that stopped or
  failed, an undisturbed one ends with the newest row refunded exactly when the row did not
  say succeeded at the start and none of them was stopped after recording the row and before
  marking it refunded; after such a stop no delivery does anything any more
  (`OrphanConverges`).
- A comment at internal/payments/service.go:233-235 says that a request for an intent falls
  through to a new intent when the old one was canceled or has succeeded. Reading the order
  reconciles it first, so an undisturbed request then fails or pays the order and hands out
  nothing (`CreateIntentOutcome`).
- The comment at internal/orders/service.go:270-272 says that locking up front avoids
  deadlocks; the locks are taken in cart order (line 281), so no such claim is made.
- The token bucket's window bound needs times that do not decrease and keys that do not
  expire early. While no key expires it holds under every clock, also one that runs
  backwards, for exactly the limits that do not refill or never allow anything
  (`WindowBoundIff`). With keys expiring it holds under clocks that do not run backwards for
  exactly the limits that refill or never allow anything, and under every clock only for
  those that never allow anything (`WindowBoundWithExpiryIff`). The key expiry itself can be
  observed for exactly the limits that do not refill and have room for a token
  (`ExpiryUnobservableIff`).
- "Nothing is live after a replay" holds when no refresh of that user is under way
  (`NothingLiveIff`, `OverlappingReplayLeavesLive`).
- The server accepts a descendant as the new parent; the whole subtree then disappears
  from the tree. The form of the admin page does not offer such a parent
  (`FormOffersSafeMoves`, `EditLists`, `ServerLosesSubtree`).
- Cart merges that failed before the guest cart was deleted, and are repeated, add again
  what they had added, except for products that none of them had got to and products whose
  quantity the stock limits (`RepeatedMergeIff`). Once the guest cart is deleted a repeat
  adds nothing.
- The package comment of the recommender speaks of brand signals from activity; the code
  takes brands from the cart only. Its comment on zero affinity speaks of every product
  without affinity; the code drops only those without a rating as well.

## Model

| member | source | states |
|---|---|---|
| Stock.DeductTakesUnits | internal/orders/repository.go:406-418 | the decrement loop takes exactly the ordered units from each product row and changes nothing else |
| Stock.RestockGivesUnits | internal/orders/repository.go:420-429 | the restock loop gives exactly the held units back to each product row and changes nothing else |
| Stock.RestockUndoesDeduct | internal/orders/service.go:518-537 | releasing what a checkout reserved restores every row |
| Stock.ChecksCoverDemand | internal/orders/service.go:281-300 | with distinct products, the checks line by line bound the demand of the whole cart for each product |
| Stock.AcceptedCheckoutKeepsStock | internal/orders/service.go:281-336 | a checkout that passed its checks leaves no stock negative |
| Stock.FitsIff | internal/orders/service.go:281-300 | the checks pass exactly when every line has its product row, at the price in the cart and with at least the quantity in stock |
| Stock.DeductTaken | internal/orders/repository.go:406-418 | for a cart with one line per product each ordered product is down by the quantity of its line at an unchanged price, and no other row changed |
| Stock.RestockTakenBack | internal/orders/repository.go:420-429 | and a release of those lines is the same the other way round |
| Stock.RepeatedProductOverdraws | migrations/000016_create_cart_items_table.up.sql:1-9 | without the unique (cart, product) key two lines of one product can each pass and together overdraw the row |
| LockedCheckout.LockNextKeepsInv | internal/orders/repository.go:394-404 | locking and checking one row keeps what every transaction knows about the rows it holds |
| LockedCheckout.WriteNextKeepsInv | internal/orders/repository.go:406-429 | an uncommitted stock update keeps that too, and leaves the committed rows alone |
| LockedCheckout.CommitIsAtomic | internal/orders/service.go:269-347 | at its commit a transaction has the effect it would have had alone: a checkout finds every line in the committed rows at its price and with enough stock, takes exactly the lines and adds a pending order; a release finds its order in the status it expects, changes that status and gives exactly the units back |
| LockedCheckout.CheckoutEndsIff | internal/orders/service.go:281-293 | a step of a checkout ends its transaction exactly at the commit, or at a line whose row it could lock and which is gone, short of stock or at another price |
| LockedCheckout.ClaimKeepsInv | internal/orders/repository.go:504-511 | the compare-and-set of a release waits for the order row, and only one transaction at a time is past it |
| LockedCheckout.StepIsSerial | internal/orders/repository.go:71-85 | every single step is, for the committed product and order rows, nothing or one whole transaction or statement |
| LockedCheckout.Serializable | internal/orders/service.go:269-347 | any interleaving of checkouts, releases, rollbacks, price edits and status changes leaves the rows of a serial replay in commit order, each transaction accepted where it stands |
| LockedCheckout.EveryCommitFits | internal/orders/service.go:281-300 | in every interleaving each committed checkout fitted, line by line, the rows that the commits and price edits before it left, and each committed release found its order as expected |
| LockedCheckout.LocksAreGivenUp | internal/orders/repository.go:71-85 | in every run no lock is held by a transaction that has ended |
| LockedCheckout.EndsAlone | internal/orders/repository.go:71-85 | a transaction that nobody holds up ends within twice its lines and two steps, and has then done all it is for, exactly when every line fits or the order has the expected status, or nothing |
| LockedCheckout.StockNeverNegative | internal/orders/service.go:281-336 | no run shows a negative stock, neither committed nor inside a transaction that is still writing |
| LockedCheckout.ReleasedOncePerEntry | internal/orders/service.go:518-537 | however many releases of an order run at the same time, its items are restocked at most once for each time it entered the status they release it from |
| ShopState.LatestIsNewest | internal/payments/repository.go:170-187 | the row found for an order is its newest; no result means the order has no row |
| ShopState.NoRowOfIntent | internal/payments/repository.go:108-123 | no result means no row carries that intent |
| ShopState.PendingIntentsListed | internal/payments/repository.go:189-214 | exactly the intents of the order's pending rows are listed |
| ShopState.PendingParts | internal/payments/repository.go:189-214 | they are listed oldest first |
| ShopInvariant.PlaceOrderKeeps | internal/orders/service.go:269-347 | the checkout transaction keeps the database invariant |
| ShopInvariant.StatusKeeps | internal/orders/repository.go:504-511 | any admissible status change, with or without restock, keeps the database invariant |
| ShopInvariant.PaymentKeeps | internal/payments/repository.go:125-165 | overwriting a payment row keeps the invariant when the charge, refund or void it records did happen |
| ShopInvariant.RefundKeeps | internal/payments/service.go:540-543 | a Stripe refund of a charged payment keeps the invariant |
| ShopInvariant.OthersStay | internal/orders/service.go:512-543 | the values an operation has read stay good for its next step while any other operation moves |
| ShopInvariant.OrderStep | internal/orders/service.go:483-504 | the steps that read and admit a request keep the invariant and what the operation knows |
| ShopInvariant.NestedKeeps | internal/orders/service.go:363-384 | so does every step of the reconcile inside a request for an intent, and what the request does after it |
| ShopInvariant.ReleaseStep | internal/orders/service.go:518-537 | the compare-and-set with its restock loop does too, for every reason it is run for |
| ShopInvariant.EditStep | internal/orders/admin.go:105-113 | the forward edit does too |
| ShopInvariant.RefundStep | internal/payments/service.go:528-547 | each step of a refund does too |
| ShopInvariant.PayCasStep | internal/orders/service.go:603-611 | moving an order from pending to paid does too, and at most one operation does it |
| ShopInvariant.SucceededStep | internal/payments/service.go:365-409 | each later step of a succeeded payment does too |
| ShopInvariant.FailedStep | internal/payments/service.go:428-448 | each step of a failed payment does too |
| ShopInvariant.ReconcileStep | internal/payments/service.go:454-486 | each step of a reconcile does too |
| ShopInvariant.ReapStep | internal/payments/service.go:492-496 | listing the pending intents gives the canceller only intents of the order's rows |
| ShopInvariant.VoidCallStep | internal/payments/service.go:497-514 | after the void call the listed intents up to this one are void |
| ShopInvariant.VoidCheckStep | internal/payments/service.go:501-511 | after the status check the intent is void, in flight, or noted as misjudged |
| ShopInvariant.VoidRecordStep | internal/payments/repository.go:216-227 | marking the row keeps the invariant: a cancelled row has a void intent |
| ShopInvariant.IntentStep | internal/payments/service.go:203-244 | each step of asking for an intent does too |
| ShopInvariant.IntentRowStep | internal/payments/service.go:246-255 | recording the new intent keeps one row per intent, linked to the intent's order |
| ShopInvariant.StepKeeps | internal/payments/service.go:355-409 | every step of every operation keeps the database invariant and the operation's own |
| ShopInvariant.EventKeeps | internal/orders/repository.go:504-511 | so does every event; rows and items never change hands, nothing re-enters pending, terminal intents and executed refunds stay |
| ShopInvariant.RunKeeps | internal/orders/service.go:693-746 | the invariant holds in every reachable state, whatever the interleaving and wherever operations stop |
| ShopTheorems.StockAccounting | internal/orders/service.go:653-679 | in every run, per product, shelf plus reserved units grow exactly by the units of orders moved forward after their stock had gone back |
| ShopTheorems.StockConservedIff | internal/orders/admin.go:105-113 | stock plus the quantities held by pending, paid, processing, shipped and delivered orders is constant for every product exactly when no forward edit started from another status |
| ShopTheorems.SingleExit | internal/orders/service.go:722-728 | no step re-enters pending_payment, and over any run exactly one step moves an order out of it if it has left |
| ShopTheorems.PurchasesLoggedOnce | internal/orders/service.go:603-611 | an order's purchases are logged at most once, and only for an order a payment moved out of pending |
| ShopTheorems.RunsForward | internal/orders/repository.go:504-511 | between two points of a run orders, payments, refunds and terminal intents are never taken back |
| ShopTheorems.PaidIsNeverCancelled | internal/orders/service.go:491-537 | an order seen as paid is never cancelled, failed or pending at any later point |
| ShopTheorems.RefundedIsTrue | internal/orders/admin.go:120-157 | a refunded order has an executed Stripe refund of one of its own charged payments |
| ShopTheorems.OneRefundPerIntent | internal/payments/service.go:540-546 | no intent is refunded under two keys |
| ShopTheorems.WriteOrder | internal/payments/service.go:365-396 | in every reachable state a succeeded or refunded row has a charged intent and an order that has left pending, a refunded row a refund, a cancelled row a void intent |
| ShopTheorems.ReaperSafety | internal/orders/service.go:699-746 | after the reaper cancelled an order every intent its canceller listed is void at Stripe and never succeeds in any continuation, unless that intent was misjudged |
| ShopTheorems.ReaperSafetyIff | internal/orders/service.go:699-746 | an intent listed for an order the reaper cancelled is never charged in any continuation exactly when it is canceled at Stripe by now, and one that is not was misjudged |
| ShopTheorems.MisjudgedIff | internal/payments/service.go:497-514 | in any run an intent is misjudged exactly when some canceller had its void refused and then, at its status check, saw the intent payable |
| ShopTheorems.OperationsStay | internal/orders/service.go:693-746 | operations keep the request they came from and stay done |
| ShopRecovery.SoloKeeps | internal/orders/service.go:483-543 | an operation running alone keeps the invariant with any failures |
| ShopRecovery.AttemptExact | internal/orders/admin.go:120-157 | an attempt at a cancel of a paid order or at an admin refund, from any checkpoint and with failures and stops anywhere, reaches exactly the checkpoint its number of successful steps allows |
| ShopRecovery.RefundConverges | internal/payments/service.go:528-547 | however often a cancel of a paid order or an admin refund was stopped or failed, one undisturbed attempt ends refunded, with one Stripe refund, its row marked and its items restocked once, and nothing else changed |
| ShopRecovery.RefundSucceedsIff | internal/payments/service.go:528-538 | an undisturbed cancel of a paid order, or refund of a paid or later one, succeeds exactly when its newest row is succeeded or already refunded |
| ShopSeries.SoloSpends | internal/payments/service.go:365-409 | any request but a failed event, a cancel, a refund and an admin edit, running alone, announces a payment at most once and only while it is open |
| ShopDelivery.DeliveryExact | internal/payments/service.go:304-409 | an undisturbed delivery does nothing when the row says succeeded, and otherwise exactly what its order calls for, pending, live or dead |
| ShopDelivery.AnnouncesIff | internal/payments/service.go:321-325 | it announces its payment exactly when the row is not succeeded and the order not dead |
| ShopDelivery.ReconcileSettles | internal/payments/service.go:454-472 | an undisturbed reconcile of a pending row with a charged intent does what the missed event would have done |
| ShopDelivery.AutoRefundIff | internal/payments/service.go:370-393 | an undisturbed delivery to a dead order ends with its own row refunded exactly when the row did not say succeeded yet and is the order's newest; the whole state in each case: nothing happens to a succeeded row, and through an older row the newest is refunded if it was succeeded, or none |
| ShopOrphans.AttemptedExact | internal/payments/service.go:365-393 | what one delivery makes of the newest charged row of a dead order by how many of its steps succeed |
| ShopOrphans.OrphanConverges | internal/payments/service.go:380-393 | however often it was delivered and stopped before, one undisturbed delivery ends with the row refunded exactly when the row did not say succeeded at the start and no earlier delivery stopped between recording and marking it; otherwise the row stays succeeded, refunded at Stripe only if one had got that far |
| ShopCounts.AnnouncementsExact | internal/payments/service.go:304-409 | over any series of undisturbed requests of every kind, with Stripe's own moves between them, a payment is announced exactly once per delivery, reconcile, reap or request for an intent that finds it due |
| ShopCounts.ReapCounts | internal/payments/service.go:492-520 | an undisturbed reap announces exactly the newest row of its order, when that is pending and charged: the voiding meets the charge and reconciles |
| ShopCounts.RequestCounts | internal/orders/service.go:372-382 | so does an undisturbed request for an intent of a pending order, through the reconcile inside it |
| ShopSeries.AnnouncementsBounded | internal/payments/service.go:304-409 | over any series of requests of every kind, with failures and stops anywhere, it is announced at most once for being open at the start and once per reopening |
| ShopSeries.AnnouncedAtMostOnce | internal/payments/service.go:304-327 | over any series without failed events, cancels, refunds and admin edits, failing or stopping anywhere, a payment's revenue and confirmation happen at most once more, and not at all once its row says succeeded |
| ShopDelivery.FailureExact | internal/payments/service.go:428-434 | what a failed event comes to by how many of its steps succeed: the row is overwritten whatever it said, then a pending order is released |
| ShopReopening.FailureReopensIff | internal/payments/repository.go:142-165 | a failed event reopens a payment exactly when it is for its intent, finds the row succeeded and the order live, and overwrites the row |
| ShopReopening.RefundReopensIff | internal/payments/repository.go:232-253 | a cancel or refund reopens a payment exactly when its row is the charged newest one and the attempt stops after the mark and before the release |
| ShopReopening.EditReopensIff | internal/orders/admin.go:105-113 | an admin edit reopens a payment exactly when it moves its dead order forward and its row does not say succeeded |
| ShopReopening.ReopensIff | internal/payments/service.go:321-325 | exactly which turns reopen a payment: these three kinds under these conditions, and no other request |
| ShopReopening.LateFailureAnnouncesAgain | internal/payments/repository.go:142-165 | for every pending order: the succeeded event, a late failed event and the succeeded event again, each alone and undisturbed, announce the payment twice |
| ShopReopening.EditAnnouncesAgain | internal/orders/admin.go:107 | for every pending order: the succeeded event, an admin refund, a forward edit and the event again, each alone and undisturbed, announce the payment twice |
| ShopOverlap.OverlapExact | internal/payments/service.go:304-409 | in any interleaving of any number of deliveries and reconciles of one payment, with failures and stops anywhere, announcements, those under way and those lost add up to the checks that passed |
| ShopOverlap.AnnouncedOnceIff | internal/payments/service.go:323-326 | when all have ended and no statement failed, the payment is announced once exactly when one of them passed its check |
| ShopOverlap.DeadAnnouncesNothing | internal/payments/service.go:370-393 | in any interleaving of them a payment of a dead order is never announced |
| ShopDelivery.DeliverySettles | internal/payments/service.go:394-408 | one undisturbed delivery to a pending order pays it, logs its purchases, records the row and announces it, and changes nothing else |
| ShopDelivery.PayLive | internal/orders/service.go:603-617 | for an order that is already paid or later, paying only records the row and announces it |
| ShopDelivery.DeliveryConverges | internal/payments/service.go:358-396 | however often the event was delivered and stopped before, one undisturbed delivery leaves the order paid or later and the row succeeded |
| ShopIntents.CreateIntentOutcome | internal/payments/service.go:203-262 | an undisturbed request on a pending order hands out the newest row's intent exactly when that row is pending and its intent can still be confirmed, and a new one, recorded once, exactly when there is no pending newest row; otherwise a succeeded intent pays the order, a declined or canceled one fails it, and none is handed out |
| ShopIntents.ReconcilePart | internal/orders/service.go:363-384 | what the reconcile inside the request comes to for each state of the intent |
| ShopIntents.CreateIntentTwice | internal/payments/service.go:220-232 | asking again changes nothing, whatever the first request came to |
| ShopIntents.VoidedRows | internal/payments/repository.go:216-227 | marking the listed intents flips exactly their pending rows |
| ShopIntents.ReapSettles | internal/payments/service.go:492-520 | an undisturbed reap of a pending order with payable intents cancels it, restocks it, voids exactly its pending intents and marks exactly their rows |
| ShopOutcomes.CheckoutOutcome | internal/orders/service.go:269-347 | an undisturbed checkout places its order exactly when every line fits, and then only adds it and takes its lines |
| ShopOutcomes.CancelOutcome | internal/orders/service.go:483-543 | an undisturbed cancel, by status: a pending order is cancelled with its units back, a paid one refunded and back when its newest row says succeeded or refunded, every other order left alone |
| ShopOutcomes.RefundOutcome | internal/orders/admin.go:120-157 | an undisturbed admin refund does the same for paid, processing, shipped and delivered orders and nothing for others |
| ShopOutcomes.EditOutcome | internal/orders/admin.go:59-115 | an undisturbed admin edit: cancelled releases a pending order and changes no other; processing, shipped and delivered change exactly the status, whatever it was; any other target changes nothing |
| ShopOutcomes.EventOutcome | internal/payments/service.go:304-409 | an undisturbed succeeded event, by the status of the row and of the order, with every field it changes |
| ShopOutcomes.FailureOutcome | internal/payments/service.go:329-353 | an undisturbed failed event: nothing for an unknown intent or a failed row, otherwise the row says failed and a pending order is released |
| ShopOutcomes.ReconcileOutcome | internal/payments/service.go:454-486 | an undisturbed reconcile, by the newest row and each state of its intent at Stripe |
| ShopOutcomes.ReapOutcome | internal/orders/service.go:699-746 | an undisturbed reap of any order and any intents: those listed before the first succeeded one are canceled and their rows marked; with none succeeded a pending order is cancelled and back on the shelf, otherwise the order is reconciled |
| ShopOutcomes.RequestOutcome | internal/payments/service.go:203-262 | an undisturbed request for an intent: one new intent and row without a pending newest row, what the reconcile inside comes to with one, nothing for an order that is not pending |
| ShopOutcomes.HitsExactly | internal/orders/repository.go:504-511 | the step that answers a request with yes is exactly the one that adds the order or the row, takes the order out of its status, or finds the intent still open |
| ShopOutcomes.FailureLeaves | internal/payments/service.go:365-409 | a failed step changes nothing, and where it leads for every step of every operation |
| ShopOutcomes.FailureInside | internal/orders/service.go:372-382 | and inside a request for an intent: back to the order as it was read, unless only a refund or a confirmation failed |
| ShopScenarios.ForwardEditLeaks | internal/orders/admin.go:107 | a cancelled order is moved to processing and its units are counted twice |
| ShopScenarios.ReapedOrderIsCharged | internal/payments/service.go:501-515 | an order the reaper cancelled is charged afterwards |
| ShopScenarios.LateFailureHidesCharge | internal/payments/repository.go:142-165 | a late failed event overwrites the succeeded row of a paid order, and its refund is refused |
| ShopScenarios.OverlappingDeliveriesAnnounceTwice | internal/payments/service.go:304-327 | a run in which two overlapping deliveries of one event both pass their check and count its revenue twice |
| ShopScenarios.OlderChargeIsNotRefunded | internal/payments/service.go:384-391 | a run in which a cancelled order is charged through its older row and the automatic refund is refused |
| ShopServices.Shop.StockKept | internal/orders/service.go:269-347 | at any moment no stock is negative, and shelf plus held units are what the shop opened with exactly when no forward edit revived a released order |
| ShopServices.Shop.RefundsAreReal | internal/orders/admin.go:120-157 | a refunded order in the table has a Stripe refund of one of its own charged payments |
| ShopServices.Shop.TransitionStatus | internal/orders/repository.go:335-342 | the compare-and-set: it hits exactly when the order has the expected status, and changes that status only |
| ShopServices.Shop.RestockItems | internal/orders/service.go:525-533 | the restock loop equals Restock of the items |
| ShopServices.Shop.LatestForOrder | internal/payments/repository.go:170-187 | the search equals Latest |
| ShopServices.Shop.GetByPaymentIntentID | internal/payments/repository.go:108-123 | the search equals RowOfIntent |
| ShopServices.Shop.PendingIntentIDsForOrder | internal/payments/repository.go:189-214 | the row loop equals PendingIntents |
| ShopServices.Shop.UpdateCancelled | internal/payments/repository.go:216-227 | only a pending row of the intent is flipped |
| ShopServices.Shop.Checkout | internal/orders/service.go:225-361 | the lock loop followed by the write loop is the protocol's checkout; when it places an order, every line had its product row at its price and with enough stock, exactly the lines were taken, and the order is the newest, pending, with the cart's lines; when it places none and no statement failed, the cart was empty or some line had no row, too little stock or another price |
| ShopServices.Shop.WriteOrder | internal/orders/service.go:301-346 | inserting the order and its items with their decrements adds exactly this order and deducts exactly its lines, or, when a statement or the commit fails, changes nothing |
| ShopServices.Shop.ReleaseItems | internal/orders/service.go:513-540 | reading the items and the release transaction are the protocol's two steps; success is reported exactly when the compare-and-set hit |
| ShopServices.Shop.ReleaseTransaction | internal/orders/service.go:718-740 | the compare-and-set with its restock loop is the protocol's release; without a failure it is ok exactly when the order had the expected status |
| ShopServices.Shop.ReleaseWrites | internal/orders/service.go:518-537 | its statements change status and stock together, or nothing |
| ShopServices.Shop.Cancel | internal/orders/service.go:483-543 | a user cancel is the protocol's cancel run to its end; it is refused exactly when its release did not hit; otherwise the order is cancelled or refunded, also when the final read fails |
| ShopServices.Shop.AdminRefund | internal/orders/admin.go:120-162 | an admin refund is the protocol's refund run to its end; it is refused exactly when its release did not hit; otherwise the order is refunded, also when the final read fails |
| ShopServices.Shop.AdminUpdateStatus | internal/orders/admin.go:59-115 | an admin edit is the protocol's edit run to its end; it is refused exactly when its compare-and-set did not hit; otherwise the status is the requested one, which an admin may set, also when the final read fails |
| ShopServices.Shop.ForwardOrder | internal/orders/admin.go:105-114 | the forward edit is the protocol's compare-and-set from the status read |
| ShopServices.Shop.MarkPaid | internal/orders/service.go:603-617 | the answer says whether the order is paid or later, and the purchases are logged by whoever moved it |
| ShopServices.Shop.MarkPaymentFailed | internal/orders/service.go:653-679 | the release of a failed order is the protocol's |
| ShopServices.Shop.StalePendingOrders | internal/orders/repository.go:344-362 | the oldest pending orders before the cutoff: all of them, or the first up to the limit |
| ShopServices.Shop.ExpireStaleCheckouts | internal/orders/service.go:693-746 | every stale order is worked to its end, and the count is the number of orders whose release by this call hit, each after its listed intents were void or judged void |
| ShopServices.Shop.ReapAll | internal/orders/service.go:698-746 | the loop counts exactly the orders it released itself |
| ShopServices.Shop.ReapOrder | internal/orders/service.go:699-745 | one order of the reaper's loop is the protocol's reap, with a reconcile instead when a payment is in flight |
| ShopServices.Shop.RefundOrder | internal/payments/service.go:528-547 | a refund of the newest row is the protocol's, and success leaves the operation ready to release the order |
| ShopServices.Shop.StripeRefund | internal/payments/service.go:89-102 | Stripe accepts a refund once per key and never a second one for an intent |
| ShopServices.Shop.OnIntentSucceeded | internal/payments/service.go:304-327 | the succeeded webhook is the protocol's, run to its end |
| ShopServices.Shop.ApplySucceeded | internal/payments/service.go:365-409 | the order is marked before the row, and a dead order is refunded instead of announced |
| ShopServices.Shop.OnIntentFailed | internal/payments/service.go:329-353 | the failed webhook is the protocol's, run to its end |
| ShopServices.Shop.ApplyFailed | internal/payments/service.go:428-448 | the row is overwritten before the order is released |
| ShopServices.Shop.Reconcile | internal/payments/service.go:454-486 | a reconcile, by itself or inside a request for an intent, does what the matching webhook would have done, or reports the failure of its own statement |
| ShopServices.Shop.CancelOrderIntents | internal/payments/service.go:492-520 | the outcome says whether all listed intents are void or judged void, a payment is in flight, or the canceller gave up |
| ShopServices.Shop.VoidIntent | internal/payments/service.go:123-135 | one void call and its status check after a refusal |
| ShopServices.Shop.CreateIntent | internal/payments/service.go:203-262 | the order is read, reconciled while pending and reloaded as the protocol says; an intent is handed out exactly when it was reused or its row recorded, and it belongs to the order and has a payment row |
| ShopServices.Shop.AfterReconcile | internal/orders/service.go:372-382 | after a failed reconcile or reload the order is taken as it was read first, otherwise as it is now |
| ShopServices.Shop.ReuseIntent | internal/payments/service.go:224-232 | the pending row's intent is reused exactly when Stripe answers and can still confirm it |
| TokenBucket.Key.Allow | internal/middleware/ratelimit_redis.go:15-37 | the script's answer, stored bucket and time to live are those of Take and Ttl, the time to live being the seconds to refill the capacity, rounded up, plus one |
| TokenBucket.TokensBounded | internal/middleware/ratelimit_redis.go:25-33 | tokens stay within zero and the capacity, whatever the clock does and whichever keys are dropped |
| TokenBucket.TakeSpends | internal/middleware/ratelimit_redis.go:27-33 | an allowed request costs one token of what was there |
| TokenBucket.WindowBound | internal/middleware/ratelimit_redis.go:15-37 | with non-decreasing times the requests allowed in any window are at most capacity plus rate times its length, with keys expiring unless the limit does not refill and has room for a token |
| TokenBucket.WindowBoundIff | internal/middleware/ratelimit_redis.go:25-33 | while no key expires the bound holds for every window of every run, whatever the clock does, for exactly the limits that do not refill or have no room for a token |
| TokenBucket.WindowBoundWithExpiryIff | internal/middleware/ratelimit_redis.go:34-36 | with keys expiring it holds under clocks that do not run backwards for exactly the limits that refill or have no room for a token, and under every clock for exactly those without room |
| TokenBucket.DeniedIff | internal/middleware/ratelimit_redis.go:15-37 | the other half, under any clock: a request is denied exactly when, counted from some earlier request, one more would exceed the capacity plus what was refilled since |
| TokenBucket.DeniedIffWindowFull | internal/middleware/ratelimit_redis.go:15-37 | with non-decreasing times a request is denied exactly when, for the window from some earlier request, the allowed ones and this one exceed capacity plus rate times its length |
| TokenBucket.ExpiryBreaksWindow | internal/middleware/ratelimit_redis.go:34-36 | for every limit that does not refill and has room for a token, the expired key allows one request more than the bound |
| TokenBucket.ZigzagBreaksWindow | internal/middleware/ratelimit_redis.go:25-33 | for every other limit a clock that goes forth, back and forth again gets one request more than the bound |
| TokenBucket.BackwardClockBreaksWindow | internal/middleware/ratelimit_redis.go:25-33 | such a run in figures, for one request a second |
| TokenBucket.ExpiredIsFull | internal/middleware/ratelimit_redis.go:34-36 | when its time to live has passed a bucket would be full anyway |
| TokenBucket.ExpiryUnobservable | internal/middleware/ratelimit_redis.go:21-36 | with a positive rate any run gives the same answers as the run in which no key is dropped |
| TokenBucket.ExpiryUnobservableIff | internal/middleware/ratelimit_redis.go:34-36 | expiry is unobservable for exactly the limits that refill or never allow anything |
| CategoryChains.DepthBound | internal/category/service.go:188-195 | no chain of parents to a root is longer than the list, which is why the recursive copy ends |
| CategoryChains.RootedIffNoLoop | internal/category/service.go:176-187 | a chain of parents ends at a root exactly when it does not run into a loop |
| CategoryChains.Moved | internal/category/service.go:119-132 | what moving one category does to every other, in any relation |
| CategoryChains.SafeMoveIff | internal/category/service.go:119-132 | without loops before, a move keeps everything rooted exactly when the new parent is outside the category and its descendants |
| CategoryTree.SiblingOrder | internal/category/service.go:177-186 | siblings stand in list order |
| CategoryTree.ForestListsRooted | internal/category/service.go:159-207 | the forest lists exactly the categories whose chain of parents ends at a root |
| CategoryTree.ForestListsOnce | internal/category/service.go:159-207 | the forest lists no category twice |
| CategoryTree.ListingExact | internal/category/service.go:188-195 | the trees of some categories list exactly these and what is below them |
| CategoryTree.ForestUnique | internal/category/service.go:159-207 | a list has one forest |
| CategoryTree.SameRowsSameParents | internal/category/repository.go:34-51 | the order in which the rows are listed does not change who is whose parent |
| CategoryServices.BuildTree | internal/category/service.go:159-207 | for every list with unique ids, loops included, the result is the forest of its rooted categories, with their fields and with siblings in list order |
| CategoryServices.LinkNodes | internal/category/service.go:176-187 | after the second pass every node points to its children in list order, and the roots are those without a listed parent |
| CategoryServices.Convert | internal/category/service.go:189-200 | the recursive copy ends, also when the list holds loops, and gives the subtree of its category |
| CategoryServices.Service.Update | internal/category/service.go:114-138 | an update is refused exactly for a name or slug outside 1 to 255 characters, itself as parent, an unknown category, a name or slug in use, or an unknown parent; on success exactly this row and its place in the parent relation changed, an empty parent meaning none |
| CategoryServices.Service.UpdateRow | internal/category/repository.go:96-115 | the statement under the table's keys and foreign key |
| CategoryAdmin.Flatten | web/src/admin/AdminCategoriesPage.tsx:8-15 | the recursion with its pushed entries equals Flat |
| CategoryAdmin.FlattenExact | web/src/admin/AdminCategoriesPage.tsx:8-15 | the page lists each rooted category once, under its name indented by its depth |
| CategoryAdmin.FlatParts | web/src/admin/AdminCategoriesPage.tsx:8-15 | the page shows tree after tree, and each as its entry followed by its children one level deeper |
| CategoryAdmin.DashesAre | web/src/admin/AdminCategoriesPage.tsx:8-15 | the indentation is one dash and one space per level |
| CategoryAdmin.ParentMap | web/src/admin/AdminCategoriesPage.tsx:20-26 | the recursion over the shared accumulator equals Recorded |
| CategoryAdmin.ParentRoundTrip | web/src/admin/AdminCategoriesPage.tsx:20-26 | applied to the built forest, it gives every listed category its original parent, or the empty string when that is absent or not in the list |
| CategoryAdmin.Find | web/src/admin/AdminCategoriesPage.tsx:29-36 | the search equals FindIn |
| CategoryAdmin.FindExact | web/src/admin/AdminCategoriesPage.tsx:29-36 | it finds the subtree of the category if and only if the forest lists it |
| CategoryAdmin.ForestExact | internal/category/service.go:159-207 | row by row: at the top exactly the categories without a listed parent, below each listed one exactly those that name it, all with their own name, slug and image and in list order |
| CategoryAdmin.DescendantsOf | web/src/admin/AdminCategoriesPage.tsx:28-47 | the recursion over the mutated set equals Descendants |
| CategoryAdmin.DescendantsExact | web/src/admin/AdminCategoriesPage.tsx:28-47 | on the built forest it finds exactly the strict descendants |
| CategoryAdmin.ParentOptions | web/src/admin/AdminCategoriesPage.tsx:207-210 | the filtered list equals Without |
| CategoryAdmin.OffersExact | web/src/admin/AdminCategoriesPage.tsx:207-210 | the form offers exactly the listed categories outside the edited one's subtree, whether or not the edited one is listed |
| CategoryAdmin.NewFormOffersAll | web/src/admin/AdminCategoriesPage.tsx:207-210 | the form for a new category offers every listed one |
| CategoryAdmin.WithoutParts | web/src/admin/AdminCategoriesPage.tsx:207-210 | what is left of the list stays in its order |
| CategoryAdmin.EditLists | internal/category/service.go:119-137 | what the rebuilt forest lists after any edit, whatever the relation was before |
| CategoryAdmin.FormOffersSafeMoves | web/src/admin/AdminCategoriesPage.tsx:207-210 | if every category was listed, a parent is offered exactly when choosing it keeps every category listed |
| CategoryAdmin.SavingUnchanged | web/src/admin/AdminCategoriesPage.tsx:152 | saving the form as it was filled in changes no parent |
| CategoryAdmin.ServerLosesSubtree | internal/category/service.go:125-128 | the server accepts a child as parent, and the forest then lists neither |
| Ranking.SortCorrect | internal/recommend/sort.go:15-22 | the result is a permutation, ordered by score and then rating, with items of equal rank in the order they came in |
| Ranking.SortScored | internal/recommend/sort.go:15-22 | sorting the array in place gives the stable sort of its items |
| Ranking.Select | internal/recommend/service.go:164-179 | the loop with its running counts and its early exit gives the greedy pick |
| Ranking.ChosenWithinCaps | internal/recommend/service.go:167-175 | the pick has at most limit items and at most two per category |
| Ranking.CappedSlots | internal/recommend/service.go:164-179 | no choice under the category caps has more items than the category slots allow |
| Ranking.ChosenSlots | internal/recommend/service.go:164-179 | the pick fills every slot until the limit |
| Ranking.PickAhead | internal/recommend/service.go:161-179 | the pick is ahead of any choice by at least the lowest score per item it has more |
| Ranking.GreedyIsOptimal | internal/recommend/service.go:161-179 | the pick from the sorted list is a choice of the candidates within the caps, and no such choice has a larger total score |
| Recommend.WeighEvents | internal/recommend/service.go:79-105 | the event loop gives every category its affinity, the products viewed in the last day, and the number of signals |
| Recommend.WeighCart | internal/recommend/service.go:107-122 | the cart loop adds the cart's intent per category and brand |
| Recommend.LoadPool | internal/product/repository.go:453-499 | the pool is the newest products in stock that are neither in the cart nor just viewed |
| Recommend.Rank | internal/recommend/service.go:142-159 | the scoring loop keeps exactly the products with a rating or an affinity, with their scores |
| Recommend.Recommend | internal/recommend/service.go:66-180 | the rail is the pick from the stably sorted candidates; nothing for a non-positive limit or a cold start |
| Recommend.OneMoreEvent | internal/recommend/service.go:182-193 | one more event raises exactly the products of its category, by 1, 3 or 5 times its decay for a view, cart add or purchase, and any other kind changes nothing and is no signal |
| Recommend.OneMoreInCart | internal/recommend/service.go:113-120 | one more row in the cart raises exactly its category by 4 and its brand by half of 2 |
| Recommend.BareScore | internal/recommend/service.go:150 | without events and cart the score is a tenth of the rating |
| Recommend.CartRowsExact | internal/product/repository.go:503-527 | the cart's rows are exactly the products with the cart's ids |
| Recommend.PoolIsNewest | internal/product/repository.go:453-499 | a product that could be shown is missing from the pool only behind a hundred newer ones |
| Recommend.CandidatesExact | internal/recommend/service.go:124-159 | the candidates, exactly: none with fewer than three signals and an empty cart, otherwise every product of the pool with a rating or a positive score |
| Recommend.RailRepeatsNothing | internal/recommend/service.go:161-179 | the rail shows nothing more often than the shop lists it |
| Recommend.ScoreNonNegative | internal/recommend/service.go:142-151 | no score is negative |
| Recommend.RailIsOptimal | internal/recommend/service.go:66-180 | the rail is within the caps and no choice of the candidates within the caps scores more |
| Recommend.RailIsFresh | internal/recommend/service.go:131-159 | everything on the rail is in stock, not in the cart, not viewed in the last day, and scores above zero |
| Recommend.RailIsFull | internal/recommend/service.go:164-179 | the rail is shorter than the limit only if every candidate left out has its category full |
| RefreshTokens.RowsKept | internal/auth/repository.go:102-121 | in every run tokens keep owner and expiry and stay used and revoked once they are |
| RefreshTokens.RotationConserves | internal/auth/service.go:175-257 | in every interleaving each login that stored a token is matched by one unused token, one successor being stored or one that was lost, so unused tokens never exceed logins |
| RefreshTokens.OthersKeep | internal/auth/repository.go:102-112 | nobody else can touch a token between its consumption and its successor |
| RefreshTokens.OneSuccessor | internal/auth/repository.go:102-112 | in every interleaving a token has at most one successor, of its own user, and only after it was consumed |
| RefreshTokens.ReplayRevokes | internal/auth/service.go:189-197 | presenting a consumed token revokes every token of its user |
| RefreshTokens.ReplayEndsSession | internal/auth/service.go:189-218 | with no other refresh of the user under way, a replay leaves nothing usable until the next login |
| RefreshTokens.NothingLiveIff | internal/auth/service.go:208-244 | a user without a live token stays without one until the next login, in every continuation, exactly when no refresh of that user is under way |
| RefreshTokens.RefreshOutcome | internal/auth/service.go:175-257 | an undisturbed refresh, by the token: a used one revokes all of its user's, an unknown, revoked or expired one changes nothing, any other is consumed and followed by one that is good for 604800 seconds |
| RefreshTokens.LoginOutcome | internal/auth/service.go:141-155 | an undisturbed login adds one such token, an undisturbed logout revokes every token of the user |
| RefreshTokens.MarksAfterGoodRead | internal/auth/service.go:189-210 | in any run an operation is about to consume a token only after it read it as unused, unrevoked and unexpired |
| RefreshTokens.ExchangedInTime | internal/auth/service.go:199-208 | in any run a token is exchanged only by a refresh that read it at most 604800 seconds after it was stored |
| RefreshTokens.OverlappingReplayLeavesLive | internal/auth/service.go:208-244 | a winner that stores its successor after the loser's revoke leaves a live token |
| AuthServices.Auth.MarkRefreshTokenUsed | internal/auth/repository.go:102-112 | the compare-and-set: it marks the token exactly when it was unused |
| AuthServices.Auth.RevokeAllUserTokens | internal/auth/repository.go:114-121 | exactly the tokens of the user are revoked |
| AuthServices.Auth.Login | internal/auth/service.go:141-155 | a login stores one live token of the user, unless its statement failed |
| AuthServices.Auth.Logout | internal/auth/service.go:261-266 | after a logout that succeeded nothing of the user is live at that moment |
| AuthServices.Auth.RefreshTokens | internal/auth/service.go:175-257 | what each answer says about the presented token; a successor is issued exactly when this call consumed the token, unexpired, and stored one; a token used, revoked or expired at the call is refused; and after a detected reuse nothing of the user is live unless the revoke failed |
| CartMerge.MergeFormula | internal/cart/service.go:220-245 | after the loop every product the user had u and the guest g of has u when the stock is at most u, u + g when that fits, and the stock otherwise; products stay distinct |
| CartMerge.MergedWithinStock | internal/cart/service.go:218-245 | nothing is lost, no quantity rises above the stock, and products only the user had are unchanged |
| CartMerge.RepeatedMergeIff | internal/cart/service.go:229-252 | after any number of failed merges, each after any number of its upserts, the repeated merge gives what a single one gives exactly when none of them got to the product or the stock is at most the sum of both quantities |
| CartMerge.UpsertDistinct | internal/cart/repository.go:129-143 | the upsert keeps one row per product |
| CartMerge.UpsertExact | internal/cart/repository.go:129-143 | it bumps the row of its product where it stands, or appends one |
| CartMerge.DetailsExact | internal/cart/repository.go:223-254 | the join shows every row with its own quantity and its product's stock |
| CartMerge.Service.AddItem | internal/cart/repository.go:129-143 | the row is bumped or appended, and no other cart changes |
| CartMerge.Service.DeleteCart | internal/cart/repository.go:214-220 | the cart and its items are gone, and no other cart changes |
| CartMerge.Service.GetOrCreateByUser | internal/cart/repository.go:35-57 | the user's one cart, created empty if there was none |
| CartMerge.Service.GetItems | internal/cart/repository.go:223-254 | the rows joined with their products' stock |
| CartMerge.Service.LoadCartAndItems | internal/cart/service.go:267-280 | the cart and its items, or nothing when there is none |
| CartMerge.Service.AddAll | internal/cart/service.go:229-245 | the loop of capped upserts equals Transferred, up to the upsert that failed |
| CartMerge.Service.TransferItems | internal/cart/service.go:220-253 | the user cart holds what Transferred says, the guest cart is gone, others are unchanged; a failure keeps what was added and the guest cart unless all was added |
| CartMerge.Service.Merge | internal/cart/service.go:191-216 | the guest strategy ends with exactly these quantities, the user strategy with the user's own, any other is refused; it fails exactly when a statement failed |
| CartMerge.Service.MergeStatus | internal/cart/service.go:153-186 | guest items are merged at once when the user has none, to the guest's quantity or the stock, reported as a conflict when both have some, and otherwise nothing happens |

## Left out

- Deletion of products and absolute stock edits: they change the conserved total by design, and with them order items without a product.
- Money totals, order numbers, addresses and their encryption, e-mail bodies and metrics other than the revenue count.
- Ownership checks, HTTP handlers, validators, JSON, cookies and the React components: requests arrive already admitted.
- Carts inside the order protocol: a checkout gets the lines it read, and two checkouts of one cart can both succeed, as in the source. Clearing the cart is not part of this model.
- Deadlock freedom of checkout: the code does not provide it.
- Creation times: rows are ordered by insertion, so two rows with equal created_at are not modelled.
- Integer widths: quantities and stock are unbounded integers.
- ShopServices.Shop.Checkout: does not model shipping rates, encryption and the clearing of the cart; a failure of any of them is a failure of its transaction.
- ShopServices.Shop.WriteOrder: does not model the address row and the cart rows it also writes.
- ShopServices.Shop.StripeRefund: does not model the expiry of idempotency keys at Stripe.
- ShopServices.Shop.CreateIntent: does not model the owner check, the amount, or an intent whose client secret is missing.
- Stripe: intents with two terminal states and a refund ledger that accepts one refund per idempotency key and per intent. The status "requires_capture" and partial refunds are not part of this model.
- A lost answer of a Stripe call is an operation that stops after the call took effect.
- A lost answer of an SQL statement is likewise an operation that stops after it. Where the source goes on after the error, the continuation is not part of this model: a request for an intent goes on with the order as it was read first although the payment inside its reconcile took effect, and the reaper does not count a release that took effect.
- ShopServices.Shop.Interfere: has an empty body and is used through its contract; the code it stands for is the other methods.
- AuthServices.Auth.Interfere: likewise.
- Services built without a canceller, reconciler or refunder.
- Publishing of payment.failed, publish retries and webhook signature checks.
- TokenBucket.ExpiryUnobservable: does not model a Redis clock that differs from the clock of the requests; with application clocks that lag, a key can go earlier than its bucket is full.
- TokenBucket.ExpiryUnobservableIff: likewise.
- TokenBucket.WindowBound: does not model floating-point rounding of the script, and a Redis outage (the limiter lets requests through then) is not part of this model.
- CategoryServices.Service.Update: does not model parsing of ids, so a category id spelled in another letter case than its canonical form, which the self-parent check would not recognise, does not occur; sorting by name and the list cache are not part of this model either.
- Recommend.WeighEvents: does not model the exponential of the recency decay; each event brings a factor between zero and one, and arithmetic is over reals.
- Ranking.SortScored: sorts by insertion, while the library routine the source calls merges sorted blocks; a stable sort has one result.
- RefreshTokens: the subject of a token's claims is taken to be the user of its row; hashing, signatures, two-factor login and password reset are not part of this model.
- CartMerge.Service.Merge: other requests on the same carts do not run between its statements, and stock does not change meanwhile.
- Message consumers, image processing, search, reviews, rate limiting in memory, seeding and tracing: plumbing, or easy one call at a time.
