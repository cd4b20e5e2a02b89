/** Payments and payouts over serial runs. */
module Cashflow {
  import opened Records
  import opened Jobs
  import opened Payments
  import opened LifeCycle
  import Seqs

  // ---- What a step may do to a payment -------------------------------------------------------

  /** Rows stay and keep whose they are; a status changes by a capture, a failure notice about a
      pending row, the release of escrow, or the refund of a captured row. */
  predicate PaymentMoves(db: Db, step: Step, before: Payment, after: Payment, captured: bool) {
    && after.job == before.job && after.user == before.user && after.amount == before.amount
    && after.orderId == before.orderId
    && if captured
       then before.status != Captured && after.status == Captured && (step.Verify? ==> after.gatewayId.Some?)
       else || after == before
            || (after == before.(status := Failed) && before.status == Awaiting && step.Webhook?)
            || (after == before.(status := Released) && step.Release?
                && before.job == step.job
                && ReleaseStep(db, step.job, step.caller, step.gatewayRef, step.choice).1 == Ok)
            || (after == before.(status := Refunded) && before.status == Captured && step.Refund?)
  }

  lemma StepPayment(db: Db, step: Step, i: nat)
    requires i < |db.payments|
    ensures i < |Apply(db, step).payments|
    ensures PaymentMoves(db, step, db.payments[i], Apply(db, step).payments[i], Captures(db, step) == Some(i))
  {
    if step.Verify? || step.Webhook? {
      GatewayMovesPayment(db, step, i);
    } else if step.Release? {
      ReleaseMovesPayment(db, step, i);
    }
  }

  lemma GatewayMovesPayment(db: Db, step: Step, i: nat)
    requires i < |db.payments| && (step.Verify? || step.Webhook?)
    ensures i < |Apply(db, step).payments|
    ensures PaymentMoves(db, step, db.payments[i], Apply(db, step).payments[i], Captures(db, step) == Some(i))
  {
    CaptureStep(db, step);
    var paid := Captures(db, step);
    if paid.Some? {
      if step.Verify? {
        CaptureMovesPayment(db, step, i, Some(step.gatewayId), Some("online"));
      } else {
        CaptureMovesPayment(db, step, i, step.gatewayRef, Some(step.via));
      }
    }
  }

  lemma CaptureMovesPayment(db: Db, step: Step, i: nat, gid: Option<string>, via: Option<string>)
    requires i < |db.payments| && (step.Verify? ==> gid.Some?)
    requires Captures(db, step).Some? && db.payments[Captures(db, step).value].status != Captured
    requires Apply(db, step) == Capture(db, Captures(db, step).value, gid, via)
    ensures i < |Apply(db, step).payments|
    ensures PaymentMoves(db, step, db.payments[i], Apply(db, step).payments[i], Captures(db, step) == Some(i))
  {
  }

  lemma ReleaseMovesPayment(db: Db, step: Step, i: nat)
    requires i < |db.payments| && step.Release?
    ensures i < |Apply(db, step).payments|
    ensures PaymentMoves(db, step, db.payments[i], Apply(db, step).payments[i], false)
  {
  }

  /** A step adds at most one row: the owner's pending order, a hold on work that is under way or
      billed, or cash collected for the owner of an open job, which closes the job. */
  lemma StepAddsPayment(db: Db, step: Step)
    ensures |db.payments| <= |Apply(db, step).payments| <= |db.payments| + 1
    ensures |Apply(db, step).payments| > |db.payments| ==>
              var p := Apply(db, step).payments[|db.payments|];
              && p.job in db.jobs
              && var job := db.jobs[p.job];
              || (step.CreatePayment? && p.status == Awaiting && p.user == job.owner)
              || (step.Hold? && p.status == Held && p.user == step.caller.id
                  && (job.status == InProgress || job.status == PaymentPending))
              || (step.Cash? && p.status == Captured && p.user == job.owner && p.orderId == p.gatewayId == None
                  && !Closed(job.status) && p.job in Apply(db, step).jobs
                  && Apply(db, step).jobs[p.job] == job.(status := Completed))
  {
  }

  /** A row is added exactly by an order, a hold or cash that succeeds. */
  lemma PaymentAddedIff(db: Db, step: Step)
    ensures |Apply(db, step).payments| > |db.payments| <==>
            || (step.CreatePayment?
                && CreateStep(db, step.job, step.user, step.amount, step.order, step.channel).1 == Ok)
            || (step.Hold? && HoldStep(db, step.job, step.caller, step.via, step.rupees, step.tx).1 == Ok)
            || (step.Cash? && CashStep(db, step.job, step.caller, step.amount).1 == Ok)
  {
    if step.Verify? || step.Webhook? {
      CaptureStep(db, step);
    }
  }

  /** Only a capture pays out. */
  lemma StepPayouts(db: Db, step: Step)
    ensures Apply(db, step).payouts
            == db.payouts
               + var paid := Captures(db, step);
                 if paid.Some? && db.payments[paid.value].job in db.jobs
                 then PayoutsOf(paid.value, db.jobs[db.payments[paid.value].job].pricing) else []
  {
  }

  // ---- Paid jobs are completed ---------------------------------------------------------------

  predicate PaidSound(jobs: map<JobId, Job>, p: Payment) {
    && p.job in jobs
    && (p.status == Captured || p.status == Refunded || p.status == Released ==> jobs[p.job].status == Completed)
  }

  ghost predicate AllPaidSound(db: Db) {
    forall i :: 0 <= i < |db.payments| ==> PaidSound(db.jobs, db.payments[i])
  }

  lemma StepKeepsPaid(db: Db, step: Step, i: nat)
    requires i < |db.payments| && PaidSound(db.jobs, db.payments[i])
    ensures i < |Apply(db, step).payments| && PaidSound(Apply(db, step).jobs, Apply(db, step).payments[i])
  {
    var j := db.payments[i].job;
    StepPayment(db, step, i);
    StepIsPlan(db, step, j);
    PlanLegal(db, step, j);
  }

  /** In every run from an empty database, a job with a captured, refunded or released payment is
      completed. */
  lemma {:induction false} PaidOverRuns(steps: seq<Step>)
    ensures AllPaidSound(Run(EMPTY, steps))
  {
    if steps != [] {
      var init, step := steps[..|steps| - 1], steps[|steps| - 1];
      var before, after := Run(EMPTY, init), Run(EMPTY, steps);
      PaidOverRuns(init);
      StepAddsPayment(before, step);
      forall i | 0 <= i < |after.payments|
        ensures PaidSound(after.jobs, after.payments[i])
      {
        if i < |before.payments| {
          StepKeepsPaid(before, step, i);
        } else {
          StepRaisesRank(before, step, after.payments[i].job);
        }
      }
    }
  }

  // ---- Each capture of a bill is paid out ----------------------------------------------------

  function PaidOut(payouts: seq<Payout>, i: nat): seq<Payout> {
    Seqs.Filter((p: Payout) => p.payment == i, payouts)
  }

  function Copies(n: nat, payouts: seq<Payout>): (r: seq<Payout>)
    ensures |payouts| == 0 ==> |r| == 0
    ensures |payouts| == 1 ==> |r| == n
  {
    if n == 0 then [] else Copies(n - 1, payouts) + payouts
  }

  /** How many steps of the run capture payment i. */
  function TimesCaptured(db: Db, steps: seq<Step>, i: nat): nat {
    if steps == [] then 0
    else
      var init, step := steps[..|steps| - 1], steps[|steps| - 1];
      TimesCaptured(db, init, i) + if Captures(Run(db, init), step) == Some(i) then 1 else 0
  }

  /** The payment has been captured n times, each time with the payout that its job's bill asks for;
      and since the first, that job is completed and its bill as it is. */
  predicate PaidByCapture(db: Db, i: nat, n: nat)
    requires i < |db.payments|
  {
    && PaidSound(db.jobs, db.payments[i])
    && (n > 0 ==> db.jobs[db.payments[i].job].status == Completed)
    && PaidOut(db.payouts, i) == Copies(n, PayoutsOf(i, db.jobs[db.payments[i].job].pricing))
  }

  lemma PaidOutAfter(payouts: seq<Payout>, more: seq<Payout>, i: nat)
    requires |more| <= 1
    ensures PaidOut(payouts + more, i)
            == PaidOut(payouts, i) + if |more| == 1 && more[0].payment == i then more else []
  {
    if |more| == 1 {
      assert more == [more[0]];
      Seqs.FilterAppend((p: Payout) => p.payment == i, payouts, more[0]);
    } else {
      assert payouts + more == payouts;
    }
  }

  /** A step pays payment i out exactly when it captures it, by the bill of its job. */
  lemma StepPaysOut(db: Db, step: Step, i: nat)
    ensures PaidOut(Apply(db, step).payouts, i)
            == PaidOut(db.payouts, i)
               + if Captures(db, step) == Some(i) && db.payments[i].job in db.jobs
                 then PayoutsOf(i, db.jobs[db.payments[i].job].pricing) else []
  {
    StepPayouts(db, step);
    var paid := Captures(db, step);
    PaidOutAfter(db.payouts,
                 if paid.Some? && db.payments[paid.value].job in db.jobs
                 then PayoutsOf(paid.value, db.jobs[db.payments[paid.value].job].pricing) else [], i);
  }

  lemma StepPaysByCapture(db: Db, step: Step, i: nat, n: nat)
    requires i < |db.payments| && PaidByCapture(db, i, n)
    ensures i < |Apply(db, step).payments|
    ensures PaidByCapture(Apply(db, step), i, if Captures(db, step) == Some(i) then n + 1 else n)
  {
    var j := db.payments[i].job;
    StepKeepsPaid(db, step, i);
    StepPayment(db, step, i);
    StepPaysOut(db, step, i);
    if n > 0 || Captures(db, step) == Some(i) {
      BillStands(db, step, i);
    }
  }

  /** Neither a completed job nor one of whose payments is being captured gets a bill. */
  lemma BillStands(db: Db, step: Step, i: nat)
    requires i < |db.payments| && db.payments[i].job in db.jobs
    requires db.jobs[db.payments[i].job].status == Completed || Captures(db, step) == Some(i)
    ensures var j := db.payments[i].job;
            j in Apply(db, step).jobs && Apply(db, step).jobs[j] == db.jobs[j].(status := Completed)
  {
    StepIsPlan(db, step, db.payments[i].job);
    PlanLegal(db, step, db.payments[i].job);
  }

  /** In every run from an empty database, the payouts of a payment are one copy of what its job's
      bill asks for, for each time that the payment was captured through the gateway. */
  lemma {:induction false} PayoutsOverRuns(steps: seq<Step>, i: nat)
    ensures var db := Run(EMPTY, steps);
            if i < |db.payments| then PaidByCapture(db, i, TimesCaptured(EMPTY, steps, i))
            else TimesCaptured(EMPTY, steps, i) == 0 && PaidOut(db.payouts, i) == []
  {
    if steps != [] {
      var init, step := steps[..|steps| - 1], steps[|steps| - 1];
      var before, after := Run(EMPTY, init), Run(EMPTY, steps);
      PayoutsOverRuns(init, i);
      if i < |before.payments| {
        StepPaysByCapture(before, step, i, TimesCaptured(EMPTY, init, i));
      } else {
        StepPaysOut(before, step, i);
        PaidOverRuns(steps);
      }
    }
  }

  // ---- How often a payment can be captured ---------------------------------------------------

  predicate IsCaptured(db: Db, i: nat) {
    i < |db.payments| && db.payments[i].status == Captured
  }

  /** How many steps of the run take payment i out of captured. */
  function TimesReopened(db: Db, steps: seq<Step>, i: nat): nat {
    if steps == [] then 0
    else
      var init := steps[..|steps| - 1];
      TimesReopened(db, init, i) + if IsCaptured(Run(db, init), i) && !IsCaptured(Run(db, steps), i) then 1 else 0
  }

  /** How many steps create payment i as one collected in cash: one at most. */
  function TimesCashed(db: Db, steps: seq<Step>, i: nat): nat {
    if steps == [] then 0
    else
      var init := steps[..|steps| - 1];
      TimesCashed(db, init, i)
      + if i == |Run(db, init).payments| && IsCaptured(Run(db, steps), i) then 1 else 0
  }

  /** Over every run the books of captures balance: in by the gateway or in cash, out by a refund or
      a release, or still captured. */
  lemma {:induction false} CapturesBalance(db: Db, steps: seq<Step>, i: nat)
    requires !IsCaptured(db, i)
    ensures TimesCaptured(db, steps, i) + TimesCashed(db, steps, i)
            == TimesReopened(db, steps, i) + if IsCaptured(Run(db, steps), i) then 1 else 0
  {
    if steps != [] {
      var init, step := steps[..|steps| - 1], steps[|steps| - 1];
      CapturesBalance(db, init, i);
      StepBalances(Run(db, init), step, i);
    }
  }

  lemma StepBalances(db: Db, step: Step, i: nat)
    ensures Captures(db, step) == Some(i) ==> !IsCaptured(db, i) && IsCaptured(Apply(db, step), i)
    ensures i < |db.payments| && Captures(db, step) != Some(i) && !IsCaptured(db, i) ==> !IsCaptured(Apply(db, step), i)
    ensures i > |db.payments| ==> !IsCaptured(Apply(db, step), i)
  {
    if i < |db.payments| {
      StepPayment(db, step, i);
    } else {
      StepAddsPayment(db, step);
    }
  }

  /** What takes a payment out of captured is a refund, or a release that names it. */
  lemma ReopenedBy(db: Db, step: Step, i: nat)
    requires IsCaptured(db, i) && !IsCaptured(Apply(db, step), i)
    ensures step.Refund? || (step.Release? && step.job == db.payments[i].job)
  {
    StepPayment(db, step, i);
  }

  predicate Billed(pricing: Pricing) {
    PayoutsOf(0, pricing) != []
  }

  /** In every run a payment is paid out at most once if and only if its job has no bill or it is
      captured at most once; and one that is never refunded or released while captured is. */
  lemma PaidAtMostOnceIff(steps: seq<Step>, i: nat)
    requires i < |Run(EMPTY, steps).payments|
    ensures var db := Run(EMPTY, steps);
            && db.payments[i].job in db.jobs
            && (|PaidOut(db.payouts, i)| <= 1
                <==> !Billed(db.jobs[db.payments[i].job].pricing) || TimesCaptured(EMPTY, steps, i) <= 1)
            && (TimesReopened(EMPTY, steps, i) == 0 ==> |PaidOut(db.payouts, i)| <= 1)
  {
    PayoutsOverRuns(steps, i);
    CapturesBalance(EMPTY, steps, i);
  }

  /** Such a payment has its payout exactly when it is captured and not in cash. */
  lemma PaidOutIffCaptured(steps: seq<Step>, i: nat)
    requires i < |Run(EMPTY, steps).payments| && TimesReopened(EMPTY, steps, i) == 0
    ensures var db := Run(EMPTY, steps);
            && db.payments[i].job in db.jobs
            && PaidOut(db.payouts, i)
               == if IsCaptured(db, i) && TimesCashed(EMPTY, steps, i) == 0
                  then PayoutsOf(i, db.jobs[db.payments[i].job].pricing) else []
  {
    PayoutsOverRuns(steps, i);
    CapturesBalance(EMPTY, steps, i);
    var due := PayoutsOf(i, Run(EMPTY, steps).jobs[Run(EMPTY, steps).payments[i].job].pricing);
    assert Copies(1, due) == Copies(0, due) + due;
  }

  /** A step pays a payment out for the second time exactly when it captures one that has been paid
      out before, for a job that still has a bill. */
  lemma SecondPayoutIff(db: Db, step: Step, i: nat)
    requires i < |db.payments| && |PaidOut(db.payouts, i)| == 1 && db.payments[i].job in db.jobs
    ensures |PaidOut(Apply(db, step).payouts, i)|
            == if Captures(db, step) == Some(i) && Billed(db.jobs[db.payments[i].job].pricing) then 2 else 1
  {
    StepPaysOut(db, step, i);
  }

  /** Which a refund makes possible: the customer's confirmation of a refunded payment captures it
      and pays it out again. */
  lemma RefundThenVerifyPaysAgain(db: Db, i: nat, gatewayId: string)
    requires i < |db.payments| && db.payments[i].status == Captured && db.payments[i].job in db.jobs
    ensures var after := Apply(Apply(db, Refund(i)), Verify(i, db.payments[i].user, gatewayId));
            && i < |after.payments| && after.payments[i].status == Captured
            && after.payouts == db.payouts + PayoutsOf(i, db.jobs[db.payments[i].job].pricing)
  {
  }

  /** Each payout splits the bill: the service amount to the provider, the rest to the platform. */
  lemma PayoutSplitsTotal(i: nat, pricing: Pricing)
    requires IsBill(pricing) && pricing.service.value > 0.0 && pricing.distanceKm.value >= 0.0
    ensures |PayoutsOf(i, pricing)| == 1
    ensures var p := PayoutsOf(i, pricing)[0];
            && p.provider == pricing.service.value
            && p.provider + p.platform == pricing.total.value
            && p.platform >= 70.0
  {
  }

  // ---- One payment under duplicated and reordered deliveries ---------------------------------

  datatype Delivery = Confirmed(gatewayId: string) | Notice(event: Event, gatewayRef: Option<string>, via: string)

  /** A confirmation names the payment; a notice only its order, and may not be heard. */
  predicate IsCapture(d: Delivery, heard: bool) {
    d.Confirmed? || (heard && d.event == CaptureEvent)
  }

  predicate IsFailure(d: Delivery, heard: bool) {
    heard && d.Notice? && d.event == FailureEvent
  }

  /** The request that brings the delivery about payment i of the user, with the given order id. */
  function Request(i: nat, user: UserId, order: string, d: Delivery): Step {
    match d
    case Confirmed(gid) => Verify(i, user, gid)
    case Notice(event, ref, via) => Webhook(event, Some(order), ref, via)
  }

  function Requests(i: nat, user: UserId, order: string, ds: seq<Delivery>): seq<Step> {
    Seqs.Map(d => Request(i, user, order, d), ds)
  }

  predicate OrderOf(db: Db, i: nat, user: UserId, order: string) {
    && i < |db.payments| && db.payments[i].user == user && db.payments[i].orderId == Some(order)
    && db.payments[i].job in db.jobs
  }

  /** Notices about the order are heard: its id is not empty, and no other payment has it. */
  predicate Heard(db: Db, i: nat, order: string) {
    order != "" && forall k :: 0 <= k < |db.payments| && db.payments[k].orderId == Some(order) ==> k == i
  }

  lemma OwnOrderFound(db: Db, i: nat, user: UserId, order: string)
    requires OrderOf(db, i, user, order) && Heard(db, i, order)
    ensures Positions(WithOrder(order), db.payments) == [i]
  {
    var found := Positions(WithOrder(order), db.payments);
    assert i in found;
    assert WithOrder(order)(db.payments[i]);
    forall a | 0 <= a < |found|
      ensures found[a] == i
    {
      assert WithOrder(order)(db.payments[found[a]]);
    }
    assert found[0] == i && found[|found| - 1] == i;
  }

  /** A notice about an order that two payments share fails, and one about an empty order is ignored. */
  lemma UnheardKeepsAll(db: Db, i: nat, user: UserId, order: string, event: Event, ref: Option<string>, via: string)
    requires OrderOf(db, i, user, order) && !Heard(db, i, order)
    ensures WebhookStep(db, event, Some(order), ref, via).0 == db
  {
    if order != "" {
      var found := Positions(WithOrder(order), db.payments);
      var k :| 0 <= k < |db.payments| && db.payments[k].orderId == Some(order) && k != i;
      assert WithOrder(order)(db.payments[i]) && WithOrder(order)(db.payments[k]);
      assert i in found && k in found;
      assert |found| > 1;
    }
  }

  /** What the deliveries so far amount to. */
  function Verdict(ds: seq<Delivery>, heard: bool): PayStatus {
    if exists k :: 0 <= k < |ds| && IsCapture(ds[k], heard) then Captured
    else if exists k :: 0 <= k < |ds| && IsFailure(ds[k], heard) then Failed
    else Awaiting
  }

  function NextVerdict(was: PayStatus, d: Delivery, heard: bool): PayStatus {
    if IsCapture(d, heard) || was == Captured then Captured
    else if IsFailure(d, heard) || was == Failed then Failed
    else Awaiting
  }

  ghost predicate Settled(db: Db, after: Db, i: nat, verdict: PayStatus)
    requires i < |db.payments| && db.payments[i].job in db.jobs
  {
    var j := db.payments[i].job;
    var job := db.jobs[j];
    && |after.payments| == |db.payments|
    && after.payments[i].status == verdict
    && (forall k :: 0 <= k < |db.payments| && k != i ==> after.payments[k] == db.payments[k])
    && after.payments[i].orderId == db.payments[i].orderId && after.payments[i].user == db.payments[i].user
    && after.payments[i].job == j
    && after.jobs == db.jobs[j := if verdict == Captured then job.(status := Completed) else job]
    && after.payouts == db.payouts + (if verdict == Captured then PayoutsOf(i, job.pricing) else [])
    && after.offers == db.offers
  }

  lemma HeardAsBefore(db: Db, mid: Db, i: nat, user: UserId, order: string, was: PayStatus)
    requires OrderOf(db, i, user, order) && Settled(db, mid, i, was)
    ensures OrderOf(mid, i, user, order) && (Heard(mid, i, order) <==> Heard(db, i, order))
  {
    assert forall k :: 0 <= k < |db.payments| ==> mid.payments[k].orderId == db.payments[k].orderId;
  }

  lemma DeliveryStep(db: Db, mid: Db, i: nat, user: UserId, order: string, was: PayStatus, d: Delivery)
    requires OrderOf(db, i, user, order) && Settled(db, mid, i, was)
    requires was == Captured || was == Failed || was == Awaiting
    ensures Settled(db, Apply(mid, Request(i, user, order, d)), i, NextVerdict(was, d, Heard(db, i, order)))
  {
    HeardAsBefore(db, mid, i, user, order, was);
    if IsCapture(d, Heard(mid, i, order)) && was != Captured {
      CaptureDelivered(db, mid, i, user, order, was, d);
    } else if d.Notice? && !Heard(mid, i, order) {
      UnheardKeepsAll(mid, i, user, order, d.event, d.gatewayRef, d.via);
    } else if d.Notice? {
      OtherNotice(db, mid, i, user, order, was, d);
    }
  }

  lemma CaptureDelivered(db: Db, mid: Db, i: nat, user: UserId, order: string, was: PayStatus, d: Delivery)
    requires OrderOf(db, i, user, order) && Settled(db, mid, i, was) && was != Captured
    requires OrderOf(mid, i, user, order) && IsCapture(d, Heard(mid, i, order))
    ensures Settled(db, Apply(mid, Request(i, user, order, d)), i, Captured)
  {
    var step := Request(i, user, order, d);
    if d.Notice? {
      OwnOrderFound(mid, i, user, order);
    }
    assert Captures(mid, step) == Some(i);
    CaptureStep(mid, step);
    CaptureSettles(db, mid, Apply(mid, step), i, was);
  }

  /** A notice of a failure, of something else, or of what is captured already. */
  lemma OtherNotice(db: Db, mid: Db, i: nat, user: UserId, order: string, was: PayStatus, d: Delivery)
    requires OrderOf(db, i, user, order) && Settled(db, mid, i, was)
    requires was == Captured || was == Failed || was == Awaiting
    requires OrderOf(mid, i, user, order) && Heard(mid, i, order) && d.Notice? && !(IsCapture(d, true) && was != Captured)
    ensures Settled(db, WebhookStep(mid, d.event, Some(order), d.gatewayRef, d.via).0, i, NextVerdict(was, d, true))
  {
    OwnOrderFound(mid, i, user, order);
  }

  lemma CaptureSettles(db: Db, mid: Db, after: Db, i: nat, was: PayStatus)
    requires i < |db.payments| && db.payments[i].job in db.jobs && Settled(db, mid, i, was) && was != Captured
    requires exists gid, via :: after == Capture(mid, i, gid, via)
    ensures Settled(db, after, i, Captured)
  {
  }

  /** For one pending payment, any sequence of client confirmations and gateway notices, duplicated
      and in any order, comes to the same: captured if any capture is among them, else failed if any
      failure is, else pending; the job is completed and the payout triggered, once, exactly when a
      capture is; and nothing else changes. Notices count if the payment has its order id to itself. */
  lemma {:induction false} DeliveriesConverge(db: Db, i: nat, user: UserId, order: string, ds: seq<Delivery>)
    requires OrderOf(db, i, user, order) && db.payments[i].status == Awaiting
    ensures Settled(db, Run(db, Requests(i, user, order, ds)), i, Verdict(ds, Heard(db, i, order)))
  {
    if ds == [] {
      var j := db.payments[i].job;
      assert db.jobs == db.jobs[j := db.jobs[j]];
    } else {
      var init, last := ds[..|ds| - 1], ds[|ds| - 1];
      DeliveriesConverge(db, i, user, order, init);
      RequestsSnoc(db, i, user, order, ds);
      VerdictSnoc(ds, Heard(db, i, order));
      DeliveryStep(db, Run(db, Requests(i, user, order, init)), i, user, order, Verdict(init, Heard(db, i, order)), last);
    }
  }

  lemma RequestsSnoc(db: Db, i: nat, user: UserId, order: string, ds: seq<Delivery>)
    requires ds != []
    ensures Run(db, Requests(i, user, order, ds))
            == Apply(Run(db, Requests(i, user, order, ds[..|ds| - 1])), Request(i, user, order, ds[|ds| - 1]))
  {
    var steps := Requests(i, user, order, ds);
    assert steps[..|steps| - 1] == Requests(i, user, order, ds[..|ds| - 1]);
  }

  lemma VerdictSnoc(ds: seq<Delivery>, heard: bool)
    requires ds != []
    ensures Verdict(ds, heard) == NextVerdict(Verdict(ds[..|ds| - 1], heard), ds[|ds| - 1], heard)
  {
  }

  // ---- At most one captured payment ----------------------------------------------------------

  ghost predicate OneCaptured(db: Db, j: JobId) {
    forall a, b :: 0 <= a < b < |db.payments| && db.payments[a].job == db.payments[b].job == j
      ==> db.payments[a].status != Captured || db.payments[b].status != Captured
  }

  /** A job keeps at most one captured payment in every step but one: the capture of a payment when
      another one of the job is captured already. Cash is refused then; verify and webhook, and the
      creation of the second order, do not look. */
  lemma OneCapturedIff(db: Db, step: Step, j: JobId)
    requires OneCaptured(db, j)
    ensures OneCaptured(Apply(db, step), j)
            <==> var paid := Captures(db, step);
                 paid.None? || db.payments[paid.value].job != j
                 || forall k :: 0 <= k < |db.payments| && db.payments[k].job == j ==> db.payments[k].status != Captured
  {
    var after := Apply(db, step);
    var paid := Captures(db, step);
    forall k | 0 <= k < |db.payments|
      ensures k < |after.payments| && after.payments[k].job == db.payments[k].job
      ensures after.payments[k].status == Captured <==>
                paid == Some(k) || (db.payments[k].status == Captured && after.payments[k].status == Captured)
      ensures paid == Some(k) ==> db.payments[k].status != Captured
    {
      StepPayment(db, step, k);
    }
    StepAddsPayment(db, step);
    if step.Cash? && |after.payments| > |db.payments| {
      CashFindsNoneCaptured(db, step.job, step.caller, step.amount);
    }
    if paid.Some? {
      CaptureTouchesOne(db, step);
    }
  }

  /** The step captures a payment of the job while another one is captured. */
  ghost predicate SecondCapture(db: Db, step: Step, j: JobId) {
    && CapturesFor(db, step, j)
    && exists k :: 0 <= k < |db.payments| && db.payments[k].job == j && db.payments[k].status == Captured
  }

  lemma {:induction false} OneCapturedUpTo(db: Db, steps: seq<Step>, j: JobId, n: nat)
    requires OneCaptured(db, j) && n <= |steps|
    requires forall m :: 0 <= m < n ==> !SecondCapture(Run(db, steps[..m]), steps[m], j)
    ensures OneCaptured(Run(db, steps[..n]), j)
  {
    if n > 0 {
      OneCapturedUpTo(db, steps, j, n - 1);
      RunPrefix(db, steps, n - 1);
      OneCapturedIff(Run(db, steps[..n - 1]), steps[n - 1], j);
    }
  }

  /** Over every run the job has at most one captured payment at all times if and only if no step
      captures a second one. */
  lemma OneCapturedOverRuns(db: Db, steps: seq<Step>, j: JobId)
    requires OneCaptured(db, j)
    ensures (forall n :: 0 <= n <= |steps| ==> OneCaptured(Run(db, steps[..n]), j))
            <==> (forall n :: 0 <= n < |steps| ==> !SecondCapture(Run(db, steps[..n]), steps[n], j))
  {
    if forall n :: 0 <= n < |steps| ==> !SecondCapture(Run(db, steps[..n]), steps[n], j) {
      forall n | 0 <= n <= |steps|
        ensures OneCaptured(Run(db, steps[..n]), j)
      {
        OneCapturedUpTo(db, steps, j, n);
      }
    } else {
      var n :| 0 <= n < |steps| && SecondCapture(Run(db, steps[..n]), steps[n], j);
      RunPrefix(db, steps, n);
      if OneCaptured(Run(db, steps[..n]), j) {
        OneCapturedIff(Run(db, steps[..n]), steps[n], j);
      }
    }
  }

  lemma SecondOrder(db: Db, j: JobId, user: UserId, amount: int, order: string)
    requires j in db.jobs && db.jobs[j].owner == user && ValidAmount(amount)
    ensures Apply(db, Pay(j, user, amount, order))
            == db.(payments := db.payments + [Payment(j, user, amount, Awaiting, None, Some(order), None)])
  {
  }

  /** Confirming an order that is not captured captures it and no other. */
  lemma ConfirmCaptures(db: Db, i: nat, user: UserId, gatewayId: string)
    requires i < |db.payments| && db.payments[i].status != Captured && db.payments[i].user == user
    ensures Apply(db, Verify(i, user, gatewayId)).payments
            == db.payments[i := db.payments[i].(status := Captured, gatewayId := Some(gatewayId),
                                                channel := Some("online"))]
  {
  }

  /** Two orders of one job that are both confirmed are both captured. */
  lemma BothCaptured(db: Db, j: JobId, user: UserId, gatewayId: string)
    requires |db.payments| == 2
    requires forall i :: 0 <= i < 2 ==>
               db.payments[i].job == j && db.payments[i].user == user && db.payments[i].status == Awaiting
    ensures !OneCaptured(Apply(Apply(db, Verify(0, user, gatewayId)), Verify(1, user, gatewayId)), j)
  {
    ConfirmCaptures(db, 0, user, gatewayId);
    var one := Apply(db, Verify(0, user, gatewayId));
    ConfirmCaptures(one, 1, user, gatewayId);
    var two := Apply(one, Verify(1, user, gatewayId)).payments;
    assert two[0].job == two[1].job == j && two[0].status == two[1].status == Captured;
  }

  /** And it happens: the customer orders twice and confirms both. */
  lemma TwoOrdersBothCaptured(j: JobId, user: UserId, amount: int, gatewayId: string)
    requires ValidAmount(amount)
    ensures var steps := [Hail(j, user), Pay(j, user, amount, "first"), Pay(j, user, amount, "second"),
                          Verify(0, user, gatewayId)];
            !OneCaptured(Run(EMPTY, steps + [Verify(1, user, gatewayId)]), j)
  {
    var a, b, c := Hail(j, user), Pay(j, user, amount, "first"), Pay(j, user, amount, "second");
    var d, e := Verify(0, user, gatewayId), Verify(1, user, gatewayId);
    HailThenPay(j, user, amount, "first");
    var one := Apply(Apply(EMPTY, a), b);
    SecondOrder(one, j, user, amount, "second");
    BothCaptured(Apply(one, c), j, user, gatewayId);
    RunFour(EMPTY, a, b, c, d);
    RunSnoc(EMPTY, [a, b, c, d], e);
  }

  lemma CaptureTouchesOne(db: Db, step: Step)
    requires Captures(db, step).Some?
    ensures |Apply(db, step).payments| == |db.payments|
    ensures forall k :: 0 <= k < |db.payments| && Captures(db, step) != Some(k) ==>
              Apply(db, step).payments[k] == db.payments[k]
  {
  }

  lemma CashFindsNoneCaptured(db: Db, j: JobId, caller: Caller, amount: int)
    requires CashStep(db, j, caller, amount).1 == Ok
    ensures forall k :: 0 <= k < |db.payments| && db.payments[k].job == j ==> db.payments[k].status != Captured
  {
  }
}
