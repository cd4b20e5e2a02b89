# ClutchD, verified

ClutchD is a marketplace for on-demand mechanics. A customer opens a job; the server offers it to
nearby mechanics and garages; the first to accept is assigned; the job is worked on, billed, paid,
and shows up in the payout ledger. Beside that it sells parts, and it is kept up by small watchdogs.

This project models the parts of it that hold state over many requests, and proves what they
promise over every run. `dafny verify dfyconfig.toml` verifies everything.

## How it is built

Code that updates rows, files, Redis keys or dictionaries is a class with those fields, or a method
with the source's loops, and its `ensures` equates the new state and the reply with a step function
of the old state. A law beside each operation says, by inputs and columns alone, when it succeeds and
what it writes. The theorems are about runs of those step functions: the empty sequence of
requests, then one more at a time, with no bound on how many or of whom.

- `Money`, `Seqs`, `Records`: rounding to the paisa, filtering and stable sorting, the rows of the
  database.
- `Jobs`, `Offers`, `Payments`: the writers of jobs, offers, payments and payouts. Each writer of a
  job row is split into a decision on the row it has read (a `Plan`) and the columns it writes.
- `LifeCycle`, `Assignments`, `Cashflow`: requests one after the other. Statuses only rise, bills
  are written once, assignees and accepted offers agree, payments and payouts converge.
- `CaptureRace`: deliveries about one payment side by side, each reading the row before it commits.
- `Interleaving`: requests as transactions that read, lock, commit and roll back at any time. The
  decisions are those of the serial model, taken on rows that may have gone stale.
- `Matching`: two ranking algorithms behind one contract.
- `Windows`, `SocketGuard`, `LocationThrottle`, `FunnelWatchdog`, `Throttle`, `Auth`, `Alerts`: pruned
  lists and expiring counters against the full history they stand for.
- `Ledger`, `Sales`, `Products`: folds that must conserve money and counts.

Amounts are exact reals in rupees (payment rows hold paise, integers), instants are integers or
reals, and the clock is an input of each request. Gateway replies, signature checks, probes, the
database's choice among equally near providers, and Redis being up are inputs or assumptions.

## What turned out false of the code

For each there is a lemma that says exactly when the promise holds, for all inputs, and where that
does not already contain one, a lemma with an input that breaks it.

- Accepting an offer locks the job, declining one locks nothing: a decline that read its offer while
  it was pending can overwrite the acceptance (`Interleaving.DeclineCanRace`). An acceptance lasts
  exactly when no such decline is in flight (`Interleaving.AcceptedForeverIff`).
- The transition guard looks at a row read earlier: a status patch that races with a cancellation
  can put a cancelled job back on the road (`Interleaving.StaleWriteCanReopen`). A job never falls
  below its status exactly when no write of it to a lower one is in flight
  (`Interleaving.NeverFallsIff`, and for completed jobs `Interleaving.CompletedForeverIff`).
- So does the bill: of two finalizations side by side the second replaces the bill of the first
  (`Interleaving.SecondBillReplaces`). A bill stays exactly when the job is past billing and no write
  in flight carries another bill or takes the job back before billing (`Interleaving.BillForeverIff`).
- `cancelled` is called terminal (backend/app/services/job_service.py:25), but a customer who has
  cancelled can still confirm a payment, which completes the job (`LifeCycle.CancelledCanComplete`).
  A cancelled job rests exactly when none of its payments is captured
  (`LifeCycle.CancelledRestsIff`).
- Only cash prevents double collection (backend/app/api/v1/payments.py:351): two orders of one job
  can both be confirmed (`Cashflow.TwoOrdersBothCaptured`). A job has at most one captured payment
  throughout a run exactly when no step captures a second one (`Cashflow.OneCapturedOverRuns`).
- Verify only looks for `captured`: a refunded or released payment is captured and paid out again
  (`Cashflow.RefundThenVerifyPaysAgain`). A payment is paid out at most once in a run exactly when it
  has no bill or is captured at most once (`Cashflow.PaidAtMostOnceIff`), and captures can only
  outnumber its refunds and releases by one (`Cashflow.CapturesBalance`).
- Nor does it lock the row: two confirmations at once pay a bill out twice
  (`CaptureRace.TwoConfirmationsPayTwice`), and a failure notice that read the row too early
  overwrites `captured` (`CaptureRace.StaysCapturedIff`). Whatever begins and commits from now on, a
  bill is paid out at most once exactly when the payment is captured, no such notice is pending, and
  payouts made and pending are at most one (`CaptureRace.PaidAtMostOnceIff`).
- Two sockets of one mechanic can both pass the throttle on stored positions
  (`LocationThrottle.TwoSocketsOverlap`). What is pending keeps its distance exactly when it is one
  write at most and none was stamped in the 30 seconds before (`LocationThrottle.CalmIff`); against
  new looks that overlap, no state is safe (`LocationThrottle.NeverSafe`).
- A patch can assign a mechanic to whom nothing was offered (`Assignments.PatchCanAssignAnybody`).
  Assignees and accepted offers agree throughout a run exactly when each patch in it that names a
  mechanic is not let through by the guard or names the one the job has
  (`Assignments.AgreementOverRunsIff`).
- The invoice lines add up to the total exactly when the service amount is whole paise
  (`Jobs.InvoiceAddsUp`).
- The two ranking algorithms can differ once more than `limit` providers are in radius
  (`Matching.AlgorithmsPartBeyondLimit`). They show the same scores exactly when no provider that
  the nearest `limit` leave out outscores one of them (`Matching.AlgorithmsAgreeIff`).
- A part whose product has no seller id is shown to every seller of that name
  (`Sales.NamesakesBothShown`, exactly: `Sales.OwnedOnceIff`), and then the sellers' totals exceed
  the order's if the part costs anything (`Sales.SalesConserveIff`). Prices finer than a paisa can make
  sales and order total differ (`Sales.HalfPaisaParts`): they agree exactly when the sum of the prices
  as sent rounds to the sum as stored (`Sales.SalesConserveFineIff`).
- The ledger's description says that providers without a completed job do not appear
  (backend/app/api/v1/admin.py:558); a provider with billed jobs, of which none is completed or paid,
  does (`Ledger.UnpaidIsListed`). All listed have a completed job exactly when every provider of a
  priced job has one that is completed or paid (`Ledger.ListedCompletedIff`).

## Model

| member | source | states |
|---|---|---|
| Interleaving.InvOverRuns | backend/app/services/offer_service.py:172-221 | in every interleaving of accepts (offer read, lock, commit), dispatches, declines and other job writers, each transaction in flight still has what it relied on: a locked job is searching and nobody else's, and every accepted offer is a committed accept |
| Interleaving.AcceptAlone | backend/app/services/offer_service.py:172-221 | an accept that reads, locks and commits with nothing in between writes what the serial accept writes |
| Interleaving.DispatchAlone | backend/app/services/offer_service.py:33-125 | likewise a dispatch |
| Interleaving.DeclineAlone | backend/app/services/offer_service.py:292-313 | likewise a decline |
| Interleaving.WriteAlone | backend/app/services/job_service.py:293-484 | likewise every other writer, on the job row |
| Interleaving.CreateAlone | backend/app/services/job_service.py:220-234 | likewise the creation of a job |
| Interleaving.RollbackFrees | backend/app/services/offer_service.py:203-213 | a rollback writes nothing and frees exactly the locks of its transaction |
| Interleaving.AtMostOneAccept | backend/app/services/offer_service.py:203-221 | at most one accept ever commits for a job, it commits over `searching`, and the job is never searching afterwards |
| Interleaving.AtMostOneAcceptedOffer | backend/app/services/offer_service.py:164-166 | no two offers of one job are ever accepted at once |
| Interleaving.OffersWhileSearching | backend/app/services/offer_service.py:33-40 | an offer row only ever appears while its job is searching, whatever runs beside the dispatch |
| Interleaving.AcceptedForeverIff | backend/app/services/offer_service.py:306-313 | an accepted offer stays accepted in every continuation if and only if no decline that read it while pending is in flight |
| Interleaving.DeclineCanRace | backend/app/services/offer_service.py:292-313 | from any pending offer of a searching job, a decline can be left in flight behind a committed accept |
| Interleaving.OnlyStaleWritesLower | backend/app/services/job_service.py:299-302 | in every interleaving, one action moves a job down the status order only if it commits a write decided on a status the job no longer has |
| Interleaving.NeverFallsIff | backend/app/services/job_service.py:299-306 | in every interleaving, a job never falls below its present status in any continuation if and only if no write of it to a lower status is in flight |
| Interleaving.CompletedForeverIff | backend/app/services/job_service.py:471-473 | a completed job stays completed in every continuation if and only if every write of it in flight completes it too |
| Interleaving.LocksOverRuns | backend/app/services/offer_service.py:203-207 | every job lock is held by an accept or a dispatch of that job that is still going on |
| Interleaving.StaleWriteCanReopen | backend/app/services/job_service.py:299-306 | from any assigned job, a patch that read it before a cancellation leaves it `en_route` after it |
| Interleaving.BillForeverIff | backend/app/services/job_service.py:370-416 | in every interleaving, the pricing columns of a job stay as they are in every continuation if and only if the job is past billing and no write of it in flight carries other columns or ends before `payment_pending` |
| Interleaving.SecondBillReplaces | backend/app/services/job_service.py:370-416 | two finalizations that read an assigned job side by side: the second bill replaces the first |
| LifeCycle.StepIsPlan | backend/app/services/job_service.py:293-484 | every request changes a job row exactly by the one decision it takes on the row it read; no request loses a job |
| LifeCycle.PlanLegal | backend/app/services/job_service.py:18-26 | every decision raises the status; only finalize writes a bill, from a billable status; a closed row only takes a capture |
| LifeCycle.StepRaisesRank | backend/app/services/job_service.py:18-26 | accept, patch, finalize, complete, cancel, cash, verify, webhook and release move a status strictly up or not at all |
| LifeCycle.AtMostSixChanges | backend/app/services/job_service.py:18-26 | over every run a job changes status at most six times, never returns to searching, and stays completed |
| LifeCycle.ClosedJobsRest | backend/app/api/v1/payments.py:174-178 | a completed job row never changes again; a cancelled one changes if and only if a payment of that job is captured, and then only to completed |
| LifeCycle.CancelledRestsIff | backend/app/api/v1/payments.py:174-178 | over every run a cancelled job row stays as it is if and only if no step captures a payment of the job; else it is completed |
| LifeCycle.CancelledCanComplete | backend/app/api/v1/payments.py:166-178 | from an empty database: order, cancel, confirm ends with the job completed |
| LifeCycle.StepKeepsBill | backend/app/services/job_service.py:370-416 | the pricing columns change exactly in a finalize that succeeds, never once set, and stay all null or all set by the bill's equations |
| LifeCycle.BillsOverRuns | backend/app/services/job_service.py:370-416 | in every run the bill of a job is written at most once, and has been written exactly when its columns are set |
| LifeCycle.BillNeverChanges | backend/app/services/job_service.py:408-416 | a written bill shows the same columns after every run |
| LifeCycle.NewJobIsFresh | backend/app/services/job_service.py:220-234 | a job that appears is searching, unassigned and without a bill |
| LifeCycle.FreshColumns | backend/app/services/job_service.py:220-234 | its columns: searching, no assignee of any kind, no pricing column set, what was asked for |
| Jobs.TransitionTable | backend/app/services/job_service.py:18-32 | which of the 49 status pairs the guard lets through, said by the order of statuses |
| Jobs.PatchLaw | backend/app/services/job_service.py:299-305 | a patch is refused exactly by the guard; else the status is set, the mechanic if one is named, and the type exactly when that one is new; nothing else |
| Jobs.CompleteAndCancelLaw | backend/app/services/job_service.py:468-482 | completing fails for a cancelled job only, cancelling never; a closed job keeps its status, any other gets the new one; nothing else changes |
| Jobs.FinalizeLaw | backend/app/services/job_service.py:370-416 | a bill is written exactly for a job that is assigned, en route or in progress, with the status; nothing else changes |
| Jobs.BillColumns | backend/app/services/job_service.py:377-415 | all seven columns by service amount, metres to the mechanic (else the garage) and hour: within half a paisa each, a rupee a kilometre from 6 to 19, two from 20 to 5 |
| Jobs.PatchJobStatus | backend/app/services/job_service.py:293-306 | the patch as a step: refused without effect by the guard, else the status and, for another mechanic, id and type |
| Jobs.FinalizeJobPrice | backend/app/services/job_service.py:359-417 | the bill as a step: refused outside the three billable statuses, else all seven pricing columns and `payment_pending` |
| Jobs.CompleteJobWithPayment | backend/app/services/job_service.py:461-476 | refuses a cancelled job, repeats on a completed one, completes any other |
| Jobs.CancelJob | backend/app/services/job_service.py:479-484 | cancels any open job, leaves a closed one alone |
| Jobs.TotalWithinOnePaisa | backend/app/services/job_service.py:403-406 | the total is within one paisa of 1.18 times (service + 70 + distance fee) |
| Jobs.InvoiceAddsUp | backend/app/services/job_service.py:403-415 | the total is the sum of the invoice lines if and only if the service amount is whole paise |
| Jobs.TotalMonotone | backend/app/services/job_service.py:395-406 | a dearer service, a longer way or the night rate never lowers distance fee or total |
| Jobs.NightDoubles | backend/app/services/job_service.py:356-401 | the way costs a rupee a kilometre by day and twice that by night, up to rounding |
| Money.Round2 | backend/app/services/job_service.py:401 | rounding to the paisa moves by at most half a paisa and gives whole paise |
| Money.WholePaiseFixed | backend/app/services/job_service.py:406 | rounding leaves an amount as it is if and only if it is whole paise |
| Money.RoundsToIff | backend/app/services/job_service.py:406 | an amount rounds to a given number of paise if and only if it is closer to it than half a paisa, or half-way and that number is even |
| Money.RoundMonotone | backend/app/services/job_service.py:405-406 | rounding to the paisa, ties to even, never turns an order around |
| Assignments.StepOffers | backend/app/services/offer_service.py:186-221 | an offer only leaves pending, accepted unexpired or declined by its own provider; its expiry never moves; a new row comes from a due dispatch of its job |
| Assignments.OffersExactly | backend/app/services/offer_service.py:94-125 | which offers a step answers, and how, and which it creates: exactly those of a successful accept or decline, or of a dispatch |
| Assignments.OffersNeverRevived | backend/app/services/offer_service.py:94-125 | over every run no offer row is lost or extended and an answered one never changes |
| Assignments.CountsAddUp | backend/app/services/offer_service.py:91-132 | over every run the counts the dispatches of a job return add up to its offer rows |
| Assignments.SchedulesOverRuns | backend/app/services/offer_service.py:42-56 | in every run the dispatch that created an offer ran when the job was due, at least 15 minutes before the offer expires |
| Assignments.AgreementOverRunsIff | backend/app/services/job_service.py:299-305 | all jobs agree with their offers (unassigned with none accepted, or naming the one provider whose offer is accepted) throughout a run if and only if each patch in it finds no job, fails the guard, names nobody or names the mechanic the job has |
| Assignments.AgreementOverRuns | backend/app/services/offer_service.py:215-221 | in every such run each job is unassigned with no accepted offer, or names the one provider whose offer is accepted |
| Assignments.AssigneeIffAccepted | backend/app/services/offer_service.py:215-221 | in every such run a job has an assignee exactly when one of its offers is accepted; it is the only one and names type and id; never both ids are set |
| Assignments.PatchKeepsAgreementIff | backend/app/services/job_service.py:299-305 | a patch keeps that agreement if and only if the guard does not let it through, or it names nobody or the mechanic already assigned |
| Assignments.PatchCanAssignAnybody | backend/app/services/job_service.py:303-305 | from an empty database: a new job patched to `assigned` with a mechanic id names that mechanic with no offer at all |
| Offers.InsertOffers | backend/app/services/offer_service.py:95-109 | the insert loop adds a pending row for every key that has none, touches no other, and counts what it added |
| Offers.InsertForKinds | backend/app/services/offer_service.py:87-125 | the same for the provider kinds the request type serves |
| Offers.CreateProviderOffers | backend/app/services/offer_service.py:22-132 | the dispatch as a step, with the count it returns: nothing for a job that is not searching or not due |
| Offers.AcceptOffer | backend/app/services/offer_service.py:161-223 | the accept as a step: not found, conflict, gone, conflict on the job, or offer and job updated together |
| Offers.AcceptLaw | backend/app/services/offer_service.py:172-221 | an accept succeeds if and only if the offer is the provider's, pending and not expired, and its job is searching; then offer, status, type and the one id are written; else nothing, with the reply by cause |
| Offers.DeclineOffer | backend/app/services/offer_service.py:284-313 | the decline as a step: not found, conflict, or the offer declined and nothing else |
| Offers.DeclineLaw | backend/app/services/offer_service.py:292-313 | a decline succeeds if and only if the offer is the provider's and pending, expired or not; only its status is written |
| Offers.QueriesAreValid | backend/app/services/offer_service.py:73-85 | whichever ranking algorithm answers, the four lists of a dispatch repeat nobody and hold at most 10 and 5 |
| Offers.FanOutLaws | backend/app/services/offer_service.py:68-85 | the fan-out repeats nobody, starts with all expertise matches in order, reaches everybody found, holds at most 15 |
| Offers.TargetsLaws | backend/app/services/offer_service.py:87-125 | a dispatch tries no provider twice and at most 30 |
| Offers.DispatchIff | backend/app/services/offer_service.py:33-132 | a provider without an offer of the job gets one if and only if the job is searching and due, asks for that kind or either, and the provider was found: with the expertise, or without where the tag asks for one; it is pending for 15 minutes |
| Offers.DispatchLaws | backend/app/services/offer_service.py:33-132 | a dispatch creates rows for its job only and leaves every existing row alone |
| Payments.PaymentCreate | backend/app/api/v1/payments.py:87-120 | an order (or, with channel "qr", lines 262-299) as a step: one pending row, or refused without effect |
| Payments.CreateLaw | backend/app/api/v1/payments.py:87-120 | an order is made if and only if the amount is 100 to 50000000 paise, the job is the user's and the gateway answers; one pending row |
| Payments.CapturePayment | backend/app/api/v1/payments.py:170-185 | the capture: the row captured, its job completed from any status, one payout appended |
| Payments.CaptureLaw | backend/app/api/v1/payments.py:170-185 | a capture writes status, gateway id and channel of its payment, completes its job from any status, appends the payout, and nothing else |
| Payments.PaymentVerify | backend/app/api/v1/payments.py:157-187 | client verification as a step, without effect on a captured payment |
| Payments.VerifyLaw | backend/app/api/v1/payments.py:157-187 | a confirmation is accepted if and only if the payment is the user's, and captures it unless it is captured |
| Payments.PaymentWebhook | backend/app/api/v1/payments.py:216-251 | the gateway's notice as a step, with the lookup that finds none, one or several rows |
| Payments.WebhookLaw | backend/app/api/v1/payments.py:220-251 | a notice about an order that one payment has captures it unless it is captured, or fails it while it is pending, and else changes nothing |
| Payments.CashPayment | backend/app/api/v1/payments.py:332-393 | cash as a step: every refusal in order, else one captured row for the customer and the job completed |
| Payments.CashLaw | backend/app/api/v1/payments.py:339-393 | cash is taken if and only if the amount is 100 to 50000000 paise, the caller can see the job, it is open, and it has no captured or pending payment; one captured row for the owner, the job completed |
| Records.CanSeeIff | backend/app/services/job_service.py:262-281 | a job is seen by admins, superusers, its owner, and the mechanic or garage of the caller's own role and profile |
| Payments.HoldPayment | backend/app/api/v1/service.py:113-135 | an escrow hold as a step: one held row in paise, the job unchanged |
| Payments.HoldLaw | backend/app/api/v1/service.py:117-135 | a hold is made if and only if a customer who can see the job asks while it is in progress or billed; the row holds the rupees in paise to the nearest |
| Payments.ReleasePayment | backend/app/api/v1/service.py:139-163 | a release as a step: the row the query returns first released and the job completed, or, on a cancelled job, rolled back |
| Payments.ReleaseLaw | backend/app/api/v1/service.py:145-163 | a release succeeds if and only if a customer who can see the job asks, it is not cancelled and a row can be released; exactly one such row is, and the job completed |
| Payments.CandidateIff | backend/app/api/v1/service.py:150-152 | the rows that can be: those of the job with the given payment id, or else the held ones |
| Payments.RefundPayment | backend/app/api/v1/admin.py:686-701 | a refund as a step: only a captured row, nothing about the job |
| Payments.RefundLaw | backend/app/api/v1/admin.py:692-701 | a refund succeeds if and only if the payment is captured, and writes its status only |
| Payments.ProcessPayouts | backend/app/services/payout_service.py:18-32 | one payout record when service and total are set and not zero, else none |
| Payments.PayoutsIff | backend/app/services/payout_service.py:18-23 | a payout is due if and only if service amount and total are set and not zero: the one, and the rest |
| Payments.Releasable | backend/app/api/v1/service.py:150-156 | a release picks the newest held row of the job, or some row with the given payment id, and none only if there is none |
| Payments.AnyMayBeReleased | backend/app/api/v1/service.py:151-154 | with a payment id, every row with that id may be the one that is picked |
| Payments.Positions | backend/app/api/v1/payments.py:352-358 | a row query finds exactly the matching rows, oldest first |
| Cashflow.StepPayment | backend/app/api/v1/payments.py:166-249 | over any step a payment keeps job, user, amount and order id; its status moves only by capture, failure while pending, release, or refund while captured |
| Cashflow.StepAddsPayment | backend/app/api/v1/payments.py:382-392 | a step adds at most one row: the owner's pending order, a hold on work under way or billed, or cash captured for the owner of an open job, which it completes |
| Cashflow.PaymentAddedIff | backend/app/api/v1/payments.py:110-119 | a payment row is added if and only if an order, a hold or cash succeeds |
| Cashflow.StepPayouts | backend/app/api/v1/payments.py:182-185 | only a capture pays out, by the bill of its job |
| Cashflow.PaidOverRuns | backend/app/api/v1/payments.py:174-178 | in every run a job with a captured, refunded or released payment is completed |
| Cashflow.StepPaysOut | backend/app/api/v1/payments.py:182-185 | any step pays a payment out if and only if it captures it, by the bill of its job |
| Cashflow.PayoutsOverRuns | backend/app/api/v1/payments.py:166-185 | in every run, refunds and releases included, the payouts of a payment are one copy of what its job's present bill asks for, for each time it was captured through the gateway |
| Cashflow.CapturesBalance | backend/app/api/v1/payments.py:166-171 | over every run, captures through the gateway and in cash equal the times the payment left captured, plus one if it is captured now |
| Cashflow.ReopenedBy | backend/app/api/v1/admin.py:698-701 | only a refund, or a release of its job, takes a payment out of captured |
| Cashflow.PaidAtMostOnceIff | backend/app/api/v1/payments.py:166-185 | in every run a payment is paid out at most once if and only if its job has no bill or it is captured at most once; and so it is if it never left captured |
| Cashflow.PaidOutIffCaptured | backend/app/api/v1/payments.py:166-185 | in every run in which a payment never left captured, it has its one payout if and only if it is captured and not in cash |
| Cashflow.SecondPayoutIff | backend/app/api/v1/payments.py:166-185 | a payment paid out once is paid out a second time if and only if a step captures it again for a billed job |
| Cashflow.RefundThenVerifyPaysAgain | backend/app/api/v1/payments.py:166-171 | any captured payment that is refunded and then verified is captured again, with a second payout |
| Cashflow.PayoutSplitsTotal | backend/app/services/payout_service.py:22-23 | the payout of a bill gives the service amount to the provider, the rest of the total to the platform, at least 70 rupees |
| Cashflow.DeliveriesConverge | backend/app/api/v1/payments.py:158-251 | for a pending payment any sequence of confirmations and gateway notices, duplicated and reordered, ends captured if one is a capture, else failed if one is a failure, else pending, where notices count if the order id is not empty and no other payment has it; job completed and payout made once exactly in the first case; nothing else changes |
| Cashflow.OneCapturedIff | backend/app/api/v1/payments.py:87-120 | a job keeps at most one captured payment in a step if and only if the step does not capture one while another is captured |
| Cashflow.OneCapturedOverRuns | backend/app/api/v1/payments.py:351-359 | throughout a run a job has at most one captured payment if and only if no step captures a second one |
| Cashflow.TwoOrdersBothCaptured | backend/app/api/v1/payments.py:87-120 | from an empty database: two orders of one job, both confirmed, are both captured |
| CaptureRace.BeginThenCommit | backend/app/api/v1/payments.py:157-187 | a confirmation with nothing in between is the serial step |
| CaptureRace.NoticeAlone | backend/app/api/v1/payments.py:216-251 | a capture or failure notice with nothing in between is the serial step |
| CaptureRace.PaidAtMostOnceIff | backend/app/api/v1/payments.py:166-185 | whatever deliveries begin and commit from now on, a bill is paid out at most once if and only if the payment is captured, no failure notice that read it while pending is still to commit, and payouts made and captures pending are at most one in all |
| CaptureRace.CompletesPaidOnceIff | backend/app/api/v1/payments.py:166-185 | when nothing new begins, a bill is paid out at most once if and only if payouts made and captures pending are at most one in all |
| CaptureRace.StaysCapturedIff | backend/app/api/v1/payments.py:247-249 | a captured payment stays captured in every continuation if and only if no failure notice that read it while pending is still to commit |
| CaptureRace.PaidOnceInStep | backend/app/api/v1/payments.py:166-251 | in every run in which deliveries do not overlap, the payment is paid out once if it is captured and not at all otherwise |
| CaptureRace.TwoConfirmationsPayTwice | backend/app/api/v1/payments.py:166-185 | two confirmations that both read an uncaptured row before either commits pay its bill out twice |
| Matching.ResolveAfterMapping | backend/app/services/matching.py:59-86 | a caller that maps the tag first gets the same filter as one that does not, and mapping twice changes nothing |
| Matching.TagsByExpertise | backend/app/services/matching.py:39-52 | which tags ask for each expertise |
| Matching.SelectByExpertise | backend/app/services/matching.py:208-219 | the loop that replaces the array operator is the expertise filter |
| Matching.ReadFallbackRows | backend/app/services/matching.py:179-233 | the 200 rows the fallback reads, with and without the array operator |
| Matching.RankInRadius | backend/app/services/matching.py:235-252 | the fallback loop keeps the rows in radius and scores them |
| Matching.FallbackProviders | backend/app/services/matching.py:235-254 | the fallback computes the in-radius rows, scored, sorted and cut |
| Matching.NearestProviders | backend/app/services/matching.py:388-416 | the spatial answer sorted by score, even an empty one, or the fallback when the query failed |
| Matching.ScoreTrades | backend/app/services/matching.py:149-151 | what a score trades: two points a star, a star for 2.5 km, nothing below 50 m, 0.2 for a mechanic over a garage, no reviews as three stars, never more for farther or worse |
| Matching.RankedByColumns | backend/app/services/matching.py:240-251 | a ranked provider carries its row's id and distance, its rating or 0, and the score of that distance and rating, three stars for none |
| Matching.FallbackIsBestByScore | backend/app/services/matching.py:235-254 | the fallback returns the best `limit` by score of the in-radius rows it read, in descending order |
| Matching.FallbackReadsLaw | backend/app/services/matching.py:181-233 | the fallback reads only listed providers with the wanted expertise, and leaves one unread only beyond 200 of those (beyond 200 listed ones without the array operator) |
| Matching.FallbackLaw | backend/app/services/matching.py:236-254 | it answers only what it read, in radius, and leaves one such out only when the `limit` it answers all score at least as well |
| Matching.NearestIsSortedByScore | backend/app/services/matching.py:396-414 | the spatial path returns exactly the nearest `limit`, by descending score |
| Matching.NearestLaw | backend/app/services/matching.py:356-386 | the spatial query answers only listed providers in radius with the wanted expertise, and leaves one out only when the `limit` it answers are all at least as near |
| Matching.TiesStayByDistance | backend/app/services/matching.py:413 | providers of equal score stay in order of distance |
| Matching.FallbackReadsPassing | backend/app/services/matching.py:179-233 | with at most 200 rows to read, the fallback reads every row that passes the filter on either database |
| Matching.AlgorithmsAgree | backend/app/services/matching.py:342-416 | then, with at most `limit` in radius, both algorithms return the same providers and the same scores in the same order, however the database breaks ties |
| Matching.AlgorithmsAgreeIff | backend/app/services/matching.py:253-254 | for any number in radius, with at most 200 rows to read, both show the same scores if and only if no provider left out by the nearest `limit` outscores one of them |
| Matching.AlgorithmsPartBeyondLimit | backend/app/services/matching.py:253-254 | an input with two in radius and a limit of one for which they return different providers |
| Matching.AnswersDistinct | backend/app/services/matching.py:342-416 | no answer of either algorithm repeats a provider or exceeds its limit |
| Windows.PruneAgain | backend/app/main.py:337 | pruning a pruned list later keeps what pruning the full history would keep |
| Windows.NoWindowOverfull | deploy/funnel-watchdog/clutchd-funnel-watchdog.sh:96-113 | when each instant entered with fewer than `limit` counting, no window anywhere holds more than `limit` |
| SocketGuard.Connection.Receive | backend/app/main.py:331-340 | the decision from the pruned list is the decision from the full accepted history |
| SocketGuard.AtMostTenASecond | backend/app/main.py:336-340 | no second anywhere lets more than ten messages through |
| SocketGuard.DroppedIffTen | backend/app/main.py:331-339 | a message of legal size is dropped if and only if exactly ten got through in the second before it |
| SocketGuard.AdmitsIff | backend/app/main.py:331-340 | a message gets through if and only if it has at most 4096 characters and the tenth accepted before it, if any, is at least a second old |
| SocketGuard.ElevenTakeASecond | backend/app/main.py:336-340 | of eleven accepted messages the first and the last are at least a second apart |
| LocationThrottle.LocationStore.Locate | backend/app/main.py:458-465 | one position as a step on the shared table: written and stamped, or neither |
| LocationThrottle.LookThenStamp | backend/app/main.py:460-465 | a look and a stamp with nothing in between are that step |
| LocationThrottle.PersistsIffNoneRecent | backend/app/main.py:460-461 | in every interleaving of sockets, overlapping ones too, the one remembered instant decides as the full history: a look passes if and only if none of the user's writes was stamped in the 30 seconds before |
| LocationThrottle.LookIff | backend/app/main.py:460-461 | a look passes if and only if the user has no write or the last is at least 30 seconds old, in every interleaving |
| LocationThrottle.AtMostOneWrite | backend/app/main.py:38 | in every interleaving in which no two writes of a user are pending at once, no 30 seconds anywhere see two of their writes |
| LocationThrottle.WritesApart | backend/app/main.py:460-465 | successive writes of a user that do not overlap are at least 30 seconds apart |
| LocationThrottle.CalmIff | backend/app/main.py:460-465 | in every interleaving, the user's writes stay 30 seconds apart however the pending ones are stamped or dropped if and only if at most one is pending and, if one is, none was stamped in the last 30 seconds |
| LocationThrottle.NeverSafe | backend/app/main.py:460-465 | from every state, two sockets of a user that look together come to stamp two writes within 30 seconds |
| LocationThrottle.TwoSocketsOverlap | backend/app/main.py:460-465 | two sockets of one user that look before either stamps break that condition |
| FunnelWatchdog.Watchdog.RecentRestarts | deploy/funnel-watchdog/clutchd-funnel-watchdog.sh:96-104 | the pruned log counts the restarts of the last hour of the full history |
| FunnelWatchdog.Watchdog.Heal | deploy/funnel-watchdog/clutchd-funnel-watchdog.sh:107-116 | one restart if and only if the budget by full history allows it |
| FunnelWatchdog.Watchdog.RunOnce | deploy/funnel-watchdog/clutchd-funnel-watchdog.sh:126-158 | one run of the script is one run on the full history, with its exit |
| FunnelWatchdog.RunLaw | deploy/funnel-watchdog/clutchd-funnel-watchdog.sh:129-157 | a run restarts if and only if the local API is up, the edge does not answer (or is made not to) and fewer than the budget were made in the hour; a second time if the edge still does not; and its exit |
| FunnelWatchdog.RunKeeps | deploy/funnel-watchdog/clutchd-funnel-watchdog.sh:143-157 | a run adds at most two restarts, each within the budget |
| FunnelWatchdog.BudgetOverRuns | deploy/funnel-watchdog/clutchd-funnel-watchdog.sh:96-123 | over all runs every window of 3600 seconds, ends included, holds at most the budget |
| FunnelWatchdog.BudgetApart | deploy/funnel-watchdog/clutchd-funnel-watchdog.sh:96-113 | of one more restart than the budget the first and the last are more than 3600 seconds apart |
| Throttle.CounterIsTight | backend/app/api/v1/auth.py:57-76 | an expiring counter is a cache of the history: the number of failures that follow each other within the expiry, and it never exceeds the limit |
| Throttle.BlockedIff | backend/app/api/v1/auth.py:57-64 | an attempt is blocked if and only if the last `limit` failures, and it, follow each other within the expiry |
| Throttle.FailuresKeepTheirDistance | backend/app/api/v1/auth.py:57-72 | of limit + 1 successive failures two neighbours are at least the expiry apart |
| Auth.Redis.Login | backend/app/api/v1/auth.py:51-76 | a login as a step on its email's counter, no other email touched |
| Auth.Redis.ForgotPasswordRequest | backend/app/api/v1/auth.py:283-315 | a request for a code as a step on the three keys of its email |
| Auth.Redis.ForgotPasswordReset | backend/app/api/v1/auth.py:351-405 | a guess as a step on the three keys of its email, with the reply |
| Auth.SixFailuresTakeTime | backend/app/api/v1/auth.py:54-76 | any six checked failures with no success between them include two neighbours at least 900 s apart |
| Auth.LoginBlockedIff | backend/app/api/v1/auth.py:59-64 | a login is refused unchecked if and only if five failures without a success came before, each within 900 s of the one before, and the login too |
| Auth.GuessesOverRuns | backend/app/api/v1/auth.py:311-315 | in every timed run the attempt counter is the number of wrong guesses at the live code, and outlives it |
| Auth.FifthGuessDeletes | backend/app/api/v1/auth.py:371-388 | an issued code admits at most five wrong guesses; the fifth and none before deletes it; the promised attempts are those left |
| Auth.CodeIsLastSent | backend/app/api/v1/auth.py:308-315 | in every run the stored code is the one issued last, for 600 s from then, and there is one exactly until it is used or guessed wrong five times |
| Auth.GuessReplies | backend/app/api/v1/auth.py:357-393 | in every timed run, the reply to a guess by whether a code is live, whether it matches, and how many were wrong before |
| Auth.RightGuessWorks | backend/app/api/v1/auth.py:357-405 | in every timed run a guess changes the password if and only if it is the live code of an existing account, and a code works once |
| Auth.RequestsAreThrottled | backend/app/api/v1/auth.py:289-299 | over every run the request counter is the throttle that counts each admitted request and is cleared by a changed password |
| Auth.SentIff | backend/app/api/v1/auth.py:290-315 | in every timed run a code is sent if and only if the account is known and not three requests, each within an hour of the one before, crowd this one |
| Auth.FourRequestsTakeTime | backend/app/api/v1/auth.py:290-299 | any four counted requests with no changed password between them include two neighbours at least an hour apart |
| Alerts.AlertState.RunOnce | deploy/api-watchdog/clutchd-api-alerts.sh:107-178 | one run as a step on the two state files, with its alert |
| Alerts.FilesAreEpisode | deploy/api-watchdog/clutchd-api-alerts.sh:133-134 | after every run the files hold exactly the length of the failing episode at the end of the history |
| Alerts.AlertByHistory | deploy/api-watchdog/clutchd-api-alerts.sh:146-178 | each run's alert by the health history alone: DOWN first, a reminder each fifth failure, RECOVERED at the end |
| Alerts.AlertByProbe | deploy/api-watchdog/clutchd-api-alerts.sh:107-117 | the alert by what was probed: an inactive service fails in the grace too; the grace excuses only an active one that is not healthy |
| Alerts.AlertsByEpisode | deploy/api-watchdog/clutchd-api-alerts.sh:107-178 | over any run one DOWN per failing episode, floor(L/5) reminders for length L, one RECOVERED for each that a healthy run ended |
| Ledger.BuildLedger | backend/app/api/v1/admin.py:596-628 | the dictionary loop is the fold that enters one row after the other, with the order of first appearance |
| Ledger.MechanicPayoutLedger | backend/app/api/v1/admin.py:562-631 | the route returns the entries of the priced jobs, sorted |
| Ledger.DictIsGroupBy | backend/app/api/v1/admin.py:598-619 | the dictionary has each provider of a priced job once, mechanic before garage, with the group-by of its jobs |
| Ledger.EntryIsGroupBy | backend/app/api/v1/admin.py:620-628 | an entry counts its jobs, settled and unsettled, completed + pending = total, and earned is the worth of the settled |
| Ledger.PayoutsListed | backend/app/api/v1/admin.py:598-631 | a line is in the output if and only if its provider has a priced job and it holds the group-by of that provider's jobs |
| Ledger.LineByColumns | backend/app/api/v1/admin.py:563-628 | a provider's line by the columns of jobs and payments: there if and only if the provider (mechanic first) has a priced job; it counts those, counts as completed those completed or with a captured payment, and adds up their service amounts |
| Ledger.ListedCompletedIff | backend/app/api/v1/admin.py:558 | every provider listed has a completed job if and only if every provider of a priced job has one that is completed or paid |
| Ledger.UnpaidIsListed | backend/app/api/v1/admin.py:620-628 | a provider with a billed job, but none that is completed or paid, is listed with no completed job |
| Ledger.LedgerConserves | backend/app/api/v1/admin.py:596-631 | the output descends by pending amount, permutes the entries, counts every priced job once, and earned adds up to the settled service amounts |
| Ledger.TiesKeepOrder | backend/app/api/v1/admin.py:630 | providers with equal amounts keep the order of their first jobs |
| Sales.Shop.CreateOrder | backend/app/api/v1/marketplace.py:692-721 | an order row with the rounded total of the sent prices and one stored item per line, appended; an order without items fails and stores nothing |
| Sales.Shop.ListMySales | backend/app/api/v1/marketplace.py:838-880 | the loop cuts each order of the page to the seller's items, totals them, and skips the rest |
| Sales.OrderTotal | backend/app/api/v1/marketplace.py:699-719 | in whole paise the stored total is the sum of the stored lines |
| Sales.PageIsPerOrder | backend/app/api/v1/marketplace.py:853-878 | a page shows exactly the orders with an item of the seller, and its totals are those of the orders one by one |
| Sales.SaleByColumns | backend/app/api/v1/marketplace.py:843-863 | a seller is shown, in order, the lines of products with the seller's id, or with no seller id and the seller's name as vendor, and their sum |
| Sales.OrderByColumns | backend/app/api/v1/marketplace.py:711-718 | each stored line keeps product and quantity, and its price to the nearest paisa, half away from zero |
| Sales.SalesAreStored | backend/app/api/v1/marketplace.py:853-878 | whatever the prices sent, all sellers' totals plus the unowned lines are the stored lines, each as often as it is owned: exactly their sum if none is owned twice |
| Sales.SalesConserve | backend/app/api/v1/marketplace.py:853-878 | in whole paise they are the order total when no line is owned twice and, with no negative amount, if and only if no line that costs anything is |
| Sales.NamedSellerOwnsAlone | backend/app/api/v1/marketplace.py:845-848 | a line whose product names a seller id appears in that seller's sales and nobody else's |
| Sales.OwnedOnceIff | backend/app/api/v1/marketplace.py:845-848 | for any sellers with different ids, a line is shown to at most one if and only if its product names a seller id or at most one of them goes by the vendor's name |
| Sales.SalesConserveIff | backend/app/api/v1/marketplace.py:853-878 | an order's sales and unowned lines add up to its total if and only if no line that costs anything is of a vendor with namesakes, for whole amounts that are not negative |
| Sales.NamesakesBothShown | backend/app/api/v1/marketplace.py:847 | a line of a product without a seller id appears for both of two sellers with the vendor's name |
| Sales.OrderTotalNear | backend/app/api/v1/marketplace.py:699-719 | whatever the prices, an order's total is within half a paisa a piece, and half a paisa more, of its stored lines |
| Sales.SalesConserveFineIff | backend/app/api/v1/marketplace.py:699-703 | whatever the prices, if no line is owned twice the sales and unowned lines add up to the order total if and only if the sum as sent is closer to the sum as stored than half a paisa, or half a paisa off an even one |
| Sales.SalesConserveNear | backend/app/api/v1/marketplace.py:699-719 | whatever the prices, if no line is owned twice the sales and unowned lines are within half a paisa a piece, and half a paisa more, of the order total |
| Sales.HalfPaisaParts | backend/app/api/v1/marketplace.py:699-703 | 100 pieces at half a paisa: 0.50 in the order, 1.00 in the sale |
| Products.Catalog.CreateProduct | backend/app/api/v1/marketplace.py:349-401 | a submission as a step: replayed, rejected without effect, or one new row |
| Products.Lookup | backend/app/api/v1/marketplace.py:366-375 | the key lookup finds a row with the key if there is one |
| Products.SubmitLaw | backend/app/api/v1/marketplace.py:366-401 | a submission is replayed if and only if its key, not empty, is in the table; else it creates its row if and only if category and vendor resolve and its key is not taken |
| Products.SubmitCounts | backend/app/api/v1/marketplace.py:366-401 | one submission adds to the rows what it adds to the keys, and a keyless success adds one row |
| Products.RowsCountSubmissions | backend/app/api/v1/marketplace.py:366-401 | over any run the rows are as many as the distinct served keys plus the keyless successes, and keys stay unique |
| Products.ReplayAnswersFirst | backend/app/api/v1/marketplace.py:376-380 | every later success under a key replays the row of the first |

## Left out

- Admin reassignment (`force_assign_job`, `jobs_assign`), `delete_job` and dispute refunds are not steps: they override the life cycle on purpose, and can move a closed job back to assigned.
- `assign_job_auto` is not modelled: nothing calls it.
- Access to a job before patch, finalize, complete and cancel (role and `get_job_for_user` in backend/app/api/v1/service.py), request schemas, and rate limits by address; the theorems hold whoever sends the request.
- Payment gateway calls and signatures: their answers are inputs. Currency and gateway columns of a payment are dropped, as is the status `succeeded`, which nothing writes.
- Floats: amounts, distances, ratings and scores are exact reals, and rounding is that of the exact value; a float total can differ by a paisa.
- Distance is a column of a provider row, the same for both ranking algorithms; the haversine and the spatial functions are not part of this model.
- Notifications, pushes, socket fan-out, names, UPI ids, chat and tracking sockets.
- Interleaving.AtMostOneAccept: payment rows are not part of the interleaved state; a capture, cash payment or release there may have read any payment rows, which covers every one it could have read.
- Interleaving.InvOverRuns: a writer's flush and commit are one action, and two declines or two writes of a job may overwrite each other in any order.
- CaptureRace.PaidAtMostOnceIff: other writers of the job (finalize, cancel, cash) are not part of the race; beside them a capture is one step.
- Offers.AcceptOffer: an offer is identified by its unique key (job, kind, provider) instead of a separate id, and a caller without a provider profile is turned away before.
- Offers.CreateProviderOffers: the four queries see one state of the provider tables each; what they return is an input, tied to the ranking by `Offers.QueriesAreValid`.
- LocationThrottle.CalmIff: one server process; each further one has a table of its own.
- FunnelWatchdog.Watchdog.RunOnce: edge probing by rounds, publishing the funnel again, log text, and lines of the state file that are not numbers.
- Alerts.AlertState.RunOnce: the flapping remark in the alert text, and mail that cannot be sent.
- Auth.Redis.ForgotPasswordReset: one instant per request, so a key cannot expire between two commands of it; email normalisation, the hash of the password and Redis being down.
- Auth.Redis.Login: the account lookup and password check are one input.
- Ledger.MechanicPayoutLedger: names, ids as text and the constant columns of an entry.
- Sales.Shop.ListMySales: choosing the page (order, offset, limit) and the display name are inputs.
- Products.Catalog.CreateProduct: category and vendor rows are one input (resolved or not); update and delete of products, and two submissions of one key at the same time, are not modelled.
- Carts, cards, referrals, favorites, tickets, identity checks, fleet, the other scripts: plain reads and writes.
