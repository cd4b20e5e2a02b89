/** Runs of serial requests against the database, and what holds over every run. The admin
    reassignments and job deletion, which override the life cycle on purpose, are not steps. */
module LifeCycle {
  import opened Records
  import opened Jobs
  import opened Offers
  import opened Payments

  datatype Step =
    | NewJob(job: JobId, owner: UserId, issueTag: string, requestType: RequestType, scheduledAt: Option<Instant>)
    | Dispatch(job: JobId, shortlist: Shortlist, now: Instant, delay: nat)
    | Accept(provider: Provider, key: OfferKey, now: Instant)
    | Decline(provider: Provider, key: OfferKey)
    | Patch(job: JobId, target: Status, mechanicId: Option<ProviderId>)
    | Finalize(job: JobId, service: real, metres: map<Provider, real>, hour: nat)
    | Complete(job: JobId)
    | Cancel(job: JobId)
    | CreatePayment(job: JobId, user: UserId, amount: int, order: Option<string>, channel: Option<string>)
    | Verify(payment: nat, user: UserId, gatewayId: string)
    | Webhook(event: Event, order: Option<string>, gatewayRef: Option<string>, via: string)
    | Cash(job: JobId, caller: Caller, amount: int)
    | Hold(job: JobId, caller: Caller, via: string, rupees: real, tx: Option<string>)
    | Release(job: JobId, caller: Caller, gatewayRef: Option<string>, choice: nat)
    | Refund(payment: nat)

  /** A service request starts out searching, unassigned and without a bill. */
  function FreshJob(owner: UserId, issueTag: string, requestType: RequestType, scheduledAt: Option<Instant>): Job {
    Job(owner, issueTag, requestType, scheduledAt, Searching, None, None, None, UNPRICED)
  }

  function NewJobStep(db: Db, j: JobId, job: Job): Db {
    if j in db.jobs then db else db.(jobs := db.jobs[j := job])
  }

  function Apply(db: Db, step: Step): Db {
    match step
    case NewJob(j, owner, tag, t, at) => NewJobStep(db, j, FreshJob(owner, tag, t, at))
    case Dispatch(j, s, now, delay) => Dispatched(db, j, s, now, delay)
    case Accept(p, k, now) => AcceptStep(db, p, k, now).0
    case Decline(p, k) => DeclineStep(db, p, k).0
    case Patch(j, target, m) => PatchStep(db, j, target, m).0
    case Finalize(j, service, metres, hour) => FinalizeStep(db, j, service, metres, hour).0
    case Complete(j) => CompleteStep(db, j).0
    case Cancel(j) => CancelStep(db, j).0
    case CreatePayment(j, user, amount, order, channel) => CreateStep(db, j, user, amount, order, channel).0
    case Verify(i, user, gid) => VerifyStep(db, i, user, gid).0
    case Webhook(event, order, gid, channel) => WebhookStep(db, event, order, gid, channel).0
    case Cash(j, caller, amount) => CashStep(db, j, caller, amount).0
    case Hold(j, caller, channel, amount, tx) => HoldStep(db, j, caller, channel, amount, tx).0
    case Release(j, caller, gid, choice) => ReleaseStep(db, j, caller, gid, choice).0
    case Refund(i) => RefundStep(db, i).0
  }

  function Run(db: Db, steps: seq<Step>): Db {
    if steps == [] then db else Apply(Run(db, steps[..|steps| - 1]), steps[|steps| - 1])
  }

  // ---- Every step writes a row by one plan ---------------------------------------------------

  /** The payment a step captures, if it captures one. */
  function Captures(db: Db, step: Step): (r: Option<nat>)
    ensures r.Some? ==> r.value < |db.payments|
  {
    match step
    case Verify(i, user, gid) =>
      if i < |db.payments| && db.payments[i].user == user && db.payments[i].status != Captured then Some(i) else None
    case Webhook(event, order, gid, via) =>
      if order.None? || order.value == "" || event != CaptureEvent then None
      else
        var found := Positions(WithOrder(order.value), db.payments);
        if |found| == 1 && db.payments[found[0]].status != Captured then Some(found[0]) else None
    case _ => None
  }

  /** What the step decides about the row of job j. */
  function PlanFor(db: Db, step: Step, j: JobId): Plan
    requires j in db.jobs
  {
    var row := db.jobs[j];
    match step
    case Accept(p, k, now) =>
      if k.job == j && AcceptStep(db, p, k, now).1 == Ok then Write(AcceptWrite(p)) else Keep
    case Patch(i, target, m) => if i == j then PatchPlan(row, target, m) else Keep
    case Finalize(i, service, metres, hour) => if i == j then FinalizePlan(row, service, metres, hour) else Keep
    case Complete(i) => if i == j then CompletePlan(row) else Keep
    case Cancel(i) => if i == j then CancelPlan(row) else Keep
    case Cash(i, caller, amount) => if i == j && CashStep(db, i, caller, amount).1 == Ok then CashPlan(row) else Keep
    case Release(i, caller, gid, choice) =>
      if i == j && ReleaseStep(db, i, caller, gid, choice).1 == Ok then CompletePlan(row) else Keep
    case _ =>
      var paid := Captures(db, step);
      if paid.Some? && db.payments[paid.value].job == j then CapturePlan(row) else Keep
  }

  /** The step is a failure notice about payment k, which is still pending. */
  predicate FailsPayment(db: Db, step: Step, k: nat) {
    && step.Webhook? && k < |db.payments| && db.payments[k].status == Awaiting
    && Apply(db, step) == db.(payments := db.payments[k := db.payments[k].(status := Failed)])
  }

  /** Verify and webhook change payments, payouts and the job of the captured payment together. */
  lemma CaptureStep(db: Db, step: Step)
    requires step.Verify? || step.Webhook?
    ensures var paid := Captures(db, step);
            if paid.Some?
            then exists gid, via :: Apply(db, step) == Capture(db, paid.value, gid, via)
            else Apply(db, step) == db || exists k :: FailsPayment(db, step, k)
  {
    match step
    case Verify(i, user, gid) =>
      if Captures(db, step).Some? {
        assert Apply(db, step) == Capture(db, i, Some(gid), Some("online"));
      }
    case Webhook(event, order, gid, via) =>
      if Captures(db, step).Some? {
        assert Apply(db, step) == Capture(db, Captures(db, step).value, gid, Some(via));
      } else if Apply(db, step) != db {
        assert FailsPayment(db, step, Positions(WithOrder(order.value), db.payments)[0]);
      }
  }

  lemma StepIsPlan(db: Db, step: Step, j: JobId)
    requires j in db.jobs
    ensures j in Apply(db, step).jobs
    ensures Apply(db, step).jobs[j] == ApplyPlan(db, j, PlanFor(db, step, j)).jobs[j]
  {
    if step.Verify? || step.Webhook? {
      CaptureStep(db, step);
    } else if step.Accept? {
      AcceptIsPlan(db, step, j);
    } else if step.Cash? {
      CashIsPlan(db, step, j);
    } else if step.Release? {
      ReleaseIsPlan(db, step, j);
    } else if step.Patch? || step.Finalize? || step.Complete? || step.Cancel? {
      JobStepIsPlan(db, step, j);
    }
  }

  lemma JobStepIsPlan(db: Db, step: Step, j: JobId)
    requires j in db.jobs && (step.Patch? || step.Finalize? || step.Complete? || step.Cancel?)
    ensures j in Apply(db, step).jobs
    ensures Apply(db, step).jobs[j] == ApplyPlan(db, j, PlanFor(db, step, j)).jobs[j]
  {
  }

  lemma AcceptIsPlan(db: Db, step: Step, j: JobId)
    requires j in db.jobs && step.Accept?
    ensures j in Apply(db, step).jobs
    ensures Apply(db, step).jobs[j] == ApplyPlan(db, j, PlanFor(db, step, j)).jobs[j]
  {
  }

  lemma CashJobs(db: Db, i: JobId, caller: Caller, amount: int)
    ensures var (after, outcome) := CashStep(db, i, caller, amount);
            if outcome == Ok then i in db.jobs && after.jobs == ApplyPlan(db, i, CashPlan(db.jobs[i])).jobs
            else after == db
  {
  }

  lemma CashIsPlan(db: Db, step: Step, j: JobId)
    requires j in db.jobs && step.Cash?
    ensures j in Apply(db, step).jobs
    ensures Apply(db, step).jobs[j] == ApplyPlan(db, j, PlanFor(db, step, j)).jobs[j]
  {
    CashJobs(db, step.job, step.caller, step.amount);
  }

  lemma ReleaseJobs(db: Db, i: JobId, caller: Caller, gatewayRef: Option<string>, choice: nat)
    ensures var (after, outcome) := ReleaseStep(db, i, caller, gatewayRef, choice);
            if outcome == Ok then i in db.jobs && after.jobs == ApplyPlan(db, i, CompletePlan(db.jobs[i])).jobs
            else after == db
  {
  }

  lemma ReleaseIsPlan(db: Db, step: Step, j: JobId)
    requires j in db.jobs && step.Release?
    ensures j in Apply(db, step).jobs
    ensures Apply(db, step).jobs[j] == ApplyPlan(db, j, PlanFor(db, step, j)).jobs[j]
  {
    ReleaseJobs(db, step.job, step.caller, step.gatewayRef, step.choice);
  }

  predicate IsBill(p: Pricing) {
    && p.service.Some? && p.distanceKm.Some?
    && (p == BillFor(p.service.value, p.distanceKm.value, false)
        || p == BillFor(p.service.value, p.distanceKm.value, true))
  }

  /** What every write keeps to: the status goes up; a bill is only written with payment_pending,
      from a billable status; a closed row only takes a capture of a cancelled job. */
  predicate Legal(row: Job, plan: Plan) {
    plan.Write? ==>
      var w := plan.write;
      && Rank(row.status) < Rank(w.status)
      && (w.pricing.Some? ==> Billable(row.status) && w.status == PaymentPending && IsBill(w.pricing.value))
      && (Closed(row.status) ==> w == JobWrite(Completed, None, None))
  }

  lemma PlanLegal(db: Db, step: Step, j: JobId)
    requires j in db.jobs
    ensures Legal(db.jobs[j], PlanFor(db, step, j))
    ensures PlanFor(db, step, j).Write? && PlanFor(db, step, j).write.pricing.Some? ==> step.Finalize? && step.job == j
    ensures PlanFor(db, step, j).Write? && Closed(db.jobs[j].status) ==> Captures(db, step).Some?
  {
  }

  // ---- Status --------------------------------------------------------------------------------

  /** No request loses a job; whatever changes its status moves it up the order. */
  lemma StepRaisesRank(db: Db, step: Step, j: JobId)
    requires j in db.jobs
    ensures j in Apply(db, step).jobs
    ensures var before, after := db.jobs[j].status, Apply(db, step).jobs[j].status;
            before == after || Rank(before) < Rank(after)
  {
    StepIsPlan(db, step, j);
    PlanLegal(db, step, j);
  }

  lemma {:induction false} RunRaisesRank(db: Db, steps: seq<Step>, j: JobId)
    requires j in db.jobs
    ensures j in Run(db, steps).jobs
    ensures Rank(db.jobs[j].status) <= Rank(Run(db, steps).jobs[j].status)
  {
    if steps != [] {
      RunRaisesRank(db, steps[..|steps| - 1], j);
      StepRaisesRank(Run(db, steps[..|steps| - 1]), steps[|steps| - 1], j);
    }
  }

  /** How often a run changes the status of a job. */
  function Changes(db: Db, steps: seq<Step>, j: JobId): nat {
    if steps == [] then 0
    else
      var before, after := Run(db, steps[..|steps| - 1]), Run(db, steps);
      Changes(db, steps[..|steps| - 1], j)
      + if j in before.jobs && j in after.jobs && before.jobs[j].status != after.jobs[j].status then 1 else 0
  }

  /** Over every run a job changes status at most six times, is never searching again once it has
      left, and stays completed once it is. */
  lemma {:induction false} AtMostSixChanges(db: Db, steps: seq<Step>, j: JobId)
    requires j in db.jobs
    ensures j in Run(db, steps).jobs
    ensures Changes(db, steps, j) <= Rank(Run(db, steps).jobs[j].status) - Rank(db.jobs[j].status) <= 6
    ensures Run(db, steps).jobs[j].status == Searching ==> db.jobs[j].status == Searching
    ensures db.jobs[j].status == Completed ==> Run(db, steps).jobs[j].status == Completed
  {
    RunRaisesRank(db, steps, j);
    if steps != [] {
      var init := steps[..|steps| - 1];
      AtMostSixChanges(db, init, j);
      StepRaisesRank(Run(db, init), steps[|steps| - 1], j);
    }
  }

  /** The step captures a payment of job j. */
  predicate CapturesFor(db: Db, step: Step, j: JobId) {
    var paid := Captures(db, step);
    paid.Some? && db.payments[paid.value].job == j
  }

  /** Nothing about a completed job is ever written again. A cancelled one changes exactly when one
      of its payments is captured: then it is completed. */
  lemma ClosedJobsRest(db: Db, step: Step, j: JobId)
    requires j in db.jobs && Closed(db.jobs[j].status)
    ensures j in Apply(db, step).jobs
    ensures Apply(db, step).jobs[j]
            == if db.jobs[j].status == Cancelled && CapturesFor(db, step, j)
               then db.jobs[j].(status := Completed) else db.jobs[j]
  {
    StepIsPlan(db, step, j);
    PlanLegal(db, step, j);
  }

  lemma RunPrefix(db: Db, steps: seq<Step>, n: nat)
    requires n < |steps|
    ensures Run(db, steps[..n + 1]) == Apply(Run(db, steps[..n]), steps[n])
  {
    assert steps[..n + 1][..n] == steps[..n];
  }

  lemma RunSnoc(db: Db, steps: seq<Step>, step: Step)
    ensures Run(db, steps + [step]) == Apply(Run(db, steps), step)
  {
    assert (steps + [step])[..|steps|] == steps;
  }

  /** The n-th step of the run captures a payment of job j. */
  predicate CapturesAt(db: Db, steps: seq<Step>, n: nat, j: JobId)
    requires n < |steps|
  {
    CapturesFor(Run(db, steps[..n]), steps[n], j)
  }

  ghost predicate SomeCapturesFor(db: Db, steps: seq<Step>, j: JobId) {
    exists n :: 0 <= n < |steps| && CapturesAt(db, steps, n, j)
  }

  lemma CapturesAtInit(db: Db, steps: seq<Step>, n: nat, j: JobId)
    requires n < |steps| - 1
    ensures CapturesAt(db, steps[..|steps| - 1], n, j) <==> CapturesAt(db, steps, n, j)
  {
    assert steps[..|steps| - 1][..n] == steps[..n];
  }

  lemma SomeCapturesSnoc(db: Db, steps: seq<Step>, j: JobId)
    requires steps != []
    ensures SomeCapturesFor(db, steps, j)
            <==> SomeCapturesFor(db, steps[..|steps| - 1], j) || CapturesAt(db, steps, |steps| - 1, j)
  {
    forall n | 0 <= n < |steps| - 1
      ensures CapturesAt(db, steps[..|steps| - 1], n, j) <==> CapturesAt(db, steps, n, j)
    {
      CapturesAtInit(db, steps, n, j);
    }
    var init := steps[..|steps| - 1];
    if n :| 0 <= n < |init| && CapturesAt(db, init, n, j) {
      assert CapturesAt(db, steps, n, j);
    }
  }

  /** Over every run a cancelled job stays as it is if and only if none of its payments is captured. */
  lemma {:induction false} CancelledRestsIff(db: Db, steps: seq<Step>, j: JobId)
    requires j in db.jobs && db.jobs[j].status == Cancelled
    ensures j in Run(db, steps).jobs
    ensures Run(db, steps).jobs[j]
            == if SomeCapturesFor(db, steps, j) then db.jobs[j].(status := Completed) else db.jobs[j]
  {
    if steps != [] {
      var init := steps[..|steps| - 1];
      CancelledRestsIff(db, init, j);
      SomeCapturesSnoc(db, steps, j);
      ClosedJobsRest(Run(db, init), steps[|steps| - 1], j);
    }
  }

  lemma RunFour(db: Db, a: Step, b: Step, c: Step, d: Step)
    ensures Run(db, [a]) == Apply(db, a)
    ensures Run(db, [a, b]) == Apply(Apply(db, a), b)
    ensures Run(db, [a, b, c]) == Apply(Apply(Apply(db, a), b), c)
    ensures Run(db, [a, b, c, d]) == Apply(Apply(Apply(Apply(db, a), b), c), d)
  {
    assert [] + [a] == [a] && [a] + [b] == [a, b] && [a, b] + [c] == [a, b, c] && [a, b, c] + [d] == [a, b, c, d];
    RunSnoc(db, [], a);
    RunSnoc(db, [a], b);
    RunSnoc(db, [a, b], c);
    RunSnoc(db, [a, b, c], d);
  }

  /** A new customer's job, and their order for it. */
  function Hail(j: JobId, user: UserId): Step {
    NewJob(j, user, "noise", Auto, None)
  }

  function Pay(j: JobId, user: UserId, amount: int, order: string): Step {
    CreatePayment(j, user, amount, Some(order), None)
  }

  lemma HailThenPay(j: JobId, user: UserId, amount: int, order: string)
    requires ValidAmount(amount)
    ensures Apply(Apply(EMPTY, Hail(j, user)), Pay(j, user, amount, order))
            == Db(map[j := FreshJob(user, "noise", Auto, None)], map[],
                  [Payment(j, user, amount, Awaiting, None, Some(order), None)], [])
  {
  }

  /** And it happens: the customer orders, cancels, and confirms the payment. */
  lemma CancelledCanComplete(j: JobId, user: UserId, amount: int, order: string, gatewayId: string)
    requires ValidAmount(amount)
    ensures var start := [Hail(j, user), Pay(j, user, amount, order), Cancel(j)];
            var before, after := Run(EMPTY, start), Run(EMPTY, start + [Verify(0, user, gatewayId)]);
            && j in before.jobs && before.jobs[j].status == Cancelled
            && j in after.jobs && after.jobs[j].status == Completed
  {
    HailThenPay(j, user, amount, order);
    RunFour(EMPTY, Hail(j, user), Pay(j, user, amount, order), Cancel(j), Verify(0, user, gatewayId));
    var start := [Hail(j, user), Pay(j, user, amount, order), Cancel(j)];
    assert start + [Verify(0, user, gatewayId)]
        == [Hail(j, user), Pay(j, user, amount, order), Cancel(j), Verify(0, user, gatewayId)];
    assert CapturesFor(Run(EMPTY, start), Verify(0, user, gatewayId), j);
    ClosedJobsRest(Run(EMPTY, start), Verify(0, user, gatewayId), j);
  }

  // ---- The bill ------------------------------------------------------------------------------

  /** Either no pricing column is set, or all are, by the bill's equations and behind the point
      where a bill can be written. */
  predicate BillSound(job: Job) {
    job.pricing == UNPRICED || (IsBill(job.pricing) && Rank(job.status) >= Rank(PaymentPending))
  }

  ghost predicate BillsSound(db: Db) {
    forall j | j in db.jobs :: BillSound(db.jobs[j])
  }

  lemma StepKeepsBill(db: Db, step: Step, j: JobId)
    requires j in db.jobs && BillSound(db.jobs[j])
    ensures j in Apply(db, step).jobs && BillSound(Apply(db, step).jobs[j])
    ensures db.jobs[j].pricing != UNPRICED ==> Apply(db, step).jobs[j].pricing == db.jobs[j].pricing
    ensures Apply(db, step).jobs[j].pricing != db.jobs[j].pricing
            <==> step.Finalize? && step.job == j
                 && FinalizeStep(db, j, step.service, step.metres, step.hour).1 == Ok
  {
    StepIsPlan(db, step, j);
    PlanLegal(db, step, j);
  }

  /** A job that appears in a step appears fresh. */
  lemma NewJobIsFresh(db: Db, step: Step, j: JobId)
    requires j !in db.jobs && j in Apply(db, step).jobs
    ensures step.NewJob? && step.job == j
    ensures Apply(db, step)
            == db.(jobs := db.jobs[j := FreshJob(step.owner, step.issueTag, step.requestType, step.scheduledAt)])
  {
  }

  /** A new job's columns. */
  lemma FreshColumns(db: Db, step: Step)
    requires step.NewJob? && step.job !in db.jobs
    ensures var after := Apply(db, step);
            && step.job in after.jobs
            && var job := after.jobs[step.job];
            && job.status == Searching && job.assignedType == None && job.mechanicId == None && job.garageId == None
            && job.owner == step.owner && job.issueTag == step.issueTag && job.requestType == step.requestType
            && job.scheduledAt == step.scheduledAt
            && job.pricing.service == job.pricing.convenience == job.pricing.cancellation == job.pricing.distanceKm == None
            && job.pricing.distanceFee == job.pricing.gst == job.pricing.total == None
  {
  }

  lemma StepKeepsBills(db: Db, step: Step)
    requires BillsSound(db)
    ensures BillsSound(Apply(db, step))
  {
    forall j | j in Apply(db, step).jobs
      ensures BillSound(Apply(db, step).jobs[j])
    {
      if j in db.jobs { StepKeepsBill(db, step, j); } else { NewJobIsFresh(db, step, j); }
    }
  }

  /** How many requests of a run write the bill of a job. */
  function BillsWritten(db: Db, steps: seq<Step>, j: JobId): nat {
    if steps == [] then 0
    else
      var before, step := Run(db, steps[..|steps| - 1]), steps[|steps| - 1];
      BillsWritten(db, steps[..|steps| - 1], j)
      + if step.Finalize? && step.job == j && FinalizeStep(before, j, step.service, step.metres, step.hour).1 == Ok
        then 1 else 0
  }

  /** In every run from an empty database, all bills are sound; each is written at most once, and
      has been written exactly when the columns are set. */
  lemma {:induction false} BillsOverRuns(steps: seq<Step>, j: JobId)
    ensures BillsSound(Run(EMPTY, steps))
    ensures BillsWritten(EMPTY, steps, j)
            == if j in Run(EMPTY, steps).jobs && Run(EMPTY, steps).jobs[j].pricing != UNPRICED then 1 else 0
  {
    if steps != [] {
      var init, step := steps[..|steps| - 1], steps[|steps| - 1];
      var before, after := Run(EMPTY, init), Run(EMPTY, steps);
      BillsOverRuns(init, j);
      StepKeepsBills(before, step);
      if j in before.jobs {
        StepKeepsBill(before, step, j);
      } else if j in after.jobs {
        NewJobIsFresh(before, step, j);
      }
    }
  }

  /** A bill never changes: whatever run follows shows the same columns. */
  lemma {:induction false} BillNeverChanges(db: Db, steps: seq<Step>, j: JobId)
    requires BillsSound(db) && j in db.jobs && db.jobs[j].pricing != UNPRICED
    ensures BillsSound(Run(db, steps))
    ensures j in Run(db, steps).jobs && Run(db, steps).jobs[j].pricing == db.jobs[j].pricing
  {
    if steps != [] {
      var init, step := steps[..|steps| - 1], steps[|steps| - 1];
      BillNeverChanges(db, init, j);
      StepKeepsBills(Run(db, init), step);
      StepKeepsBill(Run(db, init), step, j);
    }
  }
}
