/** Offers and assignees over serial runs. */
module Assignments {
  import opened Records
  import opened Jobs
  import opened Offers
  import opened LifeCycle

  // ---- What a step may do to an offer --------------------------------------------------------

  /** An existing offer stays, keeps its expiry, and only leaves pending: accepted by its own
      provider before it expires, or declined by its own provider. A new row comes from a dispatch
      of its job that is due. */
  lemma StepOffers(db: Db, step: Step, k: OfferKey)
    ensures k in db.offers ==>
              && k in Apply(db, step).offers
              && Apply(db, step).offers[k].expiresAt == db.offers[k].expiresAt
              && var before, after := db.offers[k].status, Apply(db, step).offers[k].status;
              || after == before
              || (before == Pending && after == Accepted && step.Accept? && step.key == k && step.provider == k.provider
                  && step.now <= db.offers[k].expiresAt && AcceptStep(db, step.provider, k, step.now).1 == Ok)
              || (before == Pending && after == Declined && step.Decline? && step.key == k && step.provider == k.provider)
    ensures k !in db.offers && k in Apply(db, step).offers ==>
              && step.Dispatch? && step.job == k.job && Dispatchable(db, k.job, step.now)
              && Apply(db, step).offers[k] == Offer(Pending, step.now + step.delay + OFFER_TTL)
  {
    if step.Dispatch? {
      DispatchLaws(db, step.job, step.shortlist, step.now, step.delay);
    } else if !step.Accept? && !step.Decline? {
      OtherStepsKeepOffers(db, step);
    }
  }

  /** Exactly which offers a step answers and creates. */
  lemma OffersExactly(db: Db, step: Step, k: OfferKey)
    ensures k in db.offers ==>
              && k in Apply(db, step).offers
              && Apply(db, step).offers[k].status ==
                 if step.Accept? && step.key == k && AcceptStep(db, step.provider, k, step.now).1 == Ok then Accepted
                 else if step.Decline? && step.key == k && step.provider == k.provider && db.offers[k].status == Pending
                 then Declined
                 else db.offers[k].status
    ensures k !in db.offers ==>
              (k in Apply(db, step).offers <==>
                 && step.Dispatch? && Dispatchable(db, step.job, step.now)
                 && k in Targets(step.job, db.jobs[step.job], step.shortlist))
  {
    if !step.Accept? && !step.Decline? && !step.Dispatch? {
      OtherStepsKeepOffers(db, step);
    }
  }

  lemma OtherStepsKeepOffers(db: Db, step: Step)
    requires !step.Dispatch? && !step.Accept? && !step.Decline?
    ensures Apply(db, step).offers == db.offers
  {
  }

  /** Over every run an answered offer keeps its answer (a declined or expired offer is never
      revived), and no expiry is ever extended. */
  lemma {:induction false} OffersNeverRevived(db: Db, steps: seq<Step>, k: OfferKey)
    requires k in db.offers
    ensures k in Run(db, steps).offers
    ensures Run(db, steps).offers[k].expiresAt == db.offers[k].expiresAt
    ensures db.offers[k].status != Pending ==> Run(db, steps).offers[k] == db.offers[k]
  {
    if steps != [] {
      OffersNeverRevived(db, steps[..|steps| - 1], k);
      StepOffers(Run(db, steps[..|steps| - 1]), steps[|steps| - 1], k);
    }
  }

  // ---- Counting offers -----------------------------------------------------------------------

  function RowsOf(keys: set<OfferKey>, j: JobId): set<OfferKey> {
    set k | k in keys && k.job == j
  }

  /** The sum of what the dispatches of job j in the run have returned. */
  function Created(db: Db, steps: seq<Step>, j: JobId): int {
    if steps == [] then 0
    else
      var before, after := Run(db, steps[..|steps| - 1]), Run(db, steps);
      var step := steps[|steps| - 1];
      Created(db, steps[..|steps| - 1], j)
      + if step.Dispatch? && step.job == j then |after.offers| - |before.offers| else 0
  }

  /** Rows only ever join, and all that join in one step are of one job. */
  ghost predicate GrowsBy(before: set<OfferKey>, after: set<OfferKey>, j: Option<JobId>) {
    && before <= after
    && forall k | k in after - before :: j == Some(k.job)
  }

  lemma GrowthCounts(before: set<OfferKey>, after: set<OfferKey>, source: Option<JobId>, j: JobId)
    requires GrowsBy(before, after, source)
    ensures |RowsOf(after, j)| - |RowsOf(before, j)| == if source == Some(j) then |after| - |before| else 0
  {
    var added := if source == Some(j) then after - before else {};
    assert RowsOf(after, j) == RowsOf(before, j) + added;
    assert RowsOf(before, j) !! added;
    if source == Some(j) {
      assert after == before + added;
    }
  }

  lemma StepCounts(db: Db, step: Step, j: JobId)
    ensures var after := Apply(db, step);
            |RowsOf(after.offers.Keys, j)| - |RowsOf(db.offers.Keys, j)|
            == if step.Dispatch? && step.job == j then |after.offers| - |db.offers| else 0
  {
    var source := if step.Dispatch? then Some(step.job) else None;
    var before, after := db.offers, Apply(db, step).offers;
    forall k: OfferKey
      ensures k in before ==> k in after
      ensures k in after && k !in before ==> source == Some(k.job)
    {
      StepOffers(db, step, k);
    }
    assert |before| == |before.Keys| && |after| == |after.Keys|;
    GrowthCounts(before.Keys, after.Keys, source, j);
  }

  /** The returned counts sum to the job's offer rows, whatever else the run does in between. */
  lemma {:induction false} CountsAddUp(db: Db, steps: seq<Step>, j: JobId)
    ensures |RowsOf(Run(db, steps).offers.Keys, j)| == |RowsOf(db.offers.Keys, j)| + Created(db, steps, j)
  {
    if steps != [] {
      CountsAddUp(db, steps[..|steps| - 1], j);
      StepCounts(Run(db, steps[..|steps| - 1]), steps[|steps| - 1], j);
    }
  }

  // ---- Schedules -----------------------------------------------------------------------------

  /** The clock of the dispatch that created the offer. */
  function CreatedAt(db: Db, steps: seq<Step>, k: OfferKey): Option<Instant> {
    if steps == [] then None
    else
      var init, step := steps[..|steps| - 1], steps[|steps| - 1];
      if k !in Run(db, init).offers && k in Run(db, steps).offers && step.Dispatch? then Some(step.now)
      else CreatedAt(db, init, k)
  }

  /** In every run each offer belongs to a job, and was created when the job was due, at least
      fifteen minutes before it expires. */
  lemma {:induction false} SchedulesOverRuns(steps: seq<Step>, k: OfferKey)
    requires k in Run(EMPTY, steps).offers
    ensures var db, at := Run(EMPTY, steps), CreatedAt(EMPTY, steps, k);
            && k.job in db.jobs && at.Some?
            && Due(db.jobs[k.job], at.value)
            && at.value + OFFER_TTL <= db.offers[k].expiresAt
  {
    if steps != [] {
      var init, step := steps[..|steps| - 1], steps[|steps| - 1];
      var before := Run(EMPTY, init);
      if k in before.offers {
        SchedulesOverRuns(init, k);
      }
      StepOffers(before, step, k);
      StepIsPlan(before, step, k.job);
    }
  }

  // ---- Assignees -----------------------------------------------------------------------------

  predicate Unassigned(job: Job) {
    job.assignedType == None && job.mechanicId == None && job.garageId == None
  }

  /** The job names p as its assignee, and nobody else. */
  predicate Names(job: Job, p: Provider) {
    && job.assignedType == Some(p.kind)
    && job.mechanicId == (if p.kind == Mechanic then Some(p.id) else None)
    && job.garageId == (if p.kind == Garage then Some(p.id) else None)
  }

  predicate HasAccepted(db: Db, j: JobId, p: Provider) {
    OfferKey(j, p) in db.offers && db.offers[OfferKey(j, p)].status == Accepted
  }

  /** The job's columns and its offers tell the same story: nobody assigned and nobody accepted, or
      one accepted offer and its provider assigned. */
  ghost predicate Agrees(db: Db, j: JobId)
    requires j in db.jobs
  {
    || (Unassigned(db.jobs[j]) && forall p :: !HasAccepted(db, j, p))
    || (db.jobs[j].status != Searching
        && exists p :: Names(db.jobs[j], p) && HasAccepted(db, j, p) && forall q :: HasAccepted(db, j, q) ==> q == p)
  }

  ghost predicate AllAgree(db: Db) {
    forall j | j in db.jobs :: Agrees(db, j)
  }

  /** The step is no patch, or one that finds no job, is not let through, names nobody, or names the
      mechanic the job has. */
  predicate Guarded(db: Db, step: Step) {
    step.Patch? && step.job in db.jobs && ValidateTransition(db.jobs[step.job].status, step.target) ==>
      step.mechanicId.None? || step.mechanicId == db.jobs[step.job].mechanicId
  }

  predicate GuardedAt(steps: seq<Step>, n: nat)
    requires n < |steps|
  {
    Guarded(Run(EMPTY, steps[..n]), steps[n])
  }

  ghost predicate AllGuarded(steps: seq<Step>) {
    forall n :: 0 <= n < |steps| ==> GuardedAt(steps, n)
  }

  /** The step is a successful accept of an offer of job j. */
  predicate AcceptsFor(db: Db, step: Step, j: JobId) {
    step.Accept? && step.key.job == j && AcceptStep(db, step.provider, step.key, step.now).1 == Ok
  }

  /** Only a successful accept changes who has accepted, by its own provider. */
  lemma StepAccepted(db: Db, step: Step, j: JobId, p: Provider)
    ensures HasAccepted(Apply(db, step), j, p)
            <==> HasAccepted(db, j, p) || (AcceptsFor(db, step, j) && step.provider == p)
  {
    StepOffers(db, step, OfferKey(j, p));
  }

  predicate SameAssignee(a: Job, b: Job) {
    a.assignedType == b.assignedType && a.mechanicId == b.mechanicId && a.garageId == b.garageId
  }

  lemma AgreesKept(db: Db, after: Db, j: JobId)
    requires j in db.jobs && j in after.jobs && Agrees(db, j)
    requires SameAssignee(db.jobs[j], after.jobs[j])
    requires db.jobs[j].status != Searching ==> after.jobs[j].status != Searching
    requires forall p :: HasAccepted(after, j, p) <==> HasAccepted(db, j, p)
    ensures Agrees(after, j)
  {
  }

  lemma AgreesOnAccept(db: Db, after: Db, j: JobId, p: Provider)
    requires j in db.jobs && j in after.jobs && Agrees(db, j) && db.jobs[j].status == Searching
    requires after.jobs[j] == ApplyWrite(db.jobs[j], AcceptWrite(p))
    requires HasAccepted(after, j, p) && forall q :: HasAccepted(after, j, q) ==> q == p || HasAccepted(db, j, q)
    ensures Agrees(after, j)
  {
  }

  lemma StepAgrees(db: Db, step: Step, j: JobId)
    requires j in db.jobs && Agrees(db, j) && Guarded(db, step)
    ensures j in Apply(db, step).jobs && Agrees(Apply(db, step), j)
  {
    var after := Apply(db, step);
    forall p
      ensures HasAccepted(after, j, p) <==> HasAccepted(db, j, p) || (AcceptsFor(db, step, j) && step.provider == p)
    {
      StepAccepted(db, step, j, p);
    }
    if AcceptsFor(db, step, j) {
      assert HasAccepted(after, j, step.provider);
      AgreesOnAccept(db, after, j, step.provider);
    } else {
      PlanKeepsAssignee(db, step, j);
      AgreesKept(db, after, j);
    }
  }

  lemma PlanKeepsAssignee(db: Db, step: Step, j: JobId)
    requires j in db.jobs && Guarded(db, step)
    requires !AcceptsFor(db, step, j)
    ensures j in Apply(db, step).jobs && SameAssignee(db.jobs[j], Apply(db, step).jobs[j])
    ensures db.jobs[j].status != Searching ==> Apply(db, step).jobs[j].status != Searching
  {
    StepIsPlan(db, step, j);
    PlanLegal(db, step, j);
  }

  lemma StepAllAgree(steps: seq<Step>, n: nat)
    requires n < |steps| && AllAgree(Run(EMPTY, steps[..n])) && GuardedAt(steps, n)
    ensures AllAgree(Run(EMPTY, steps[..n + 1]))
  {
    var before, after := Run(EMPTY, steps[..n]), Run(EMPTY, steps[..n + 1]);
    RunPrefix(EMPTY, steps, n);
    forall k | k in before.offers
      ensures k.job in before.jobs
    {
      SchedulesOverRuns(steps[..n], k);
    }
    forall j | j in after.jobs
      ensures Agrees(after, j)
    {
      if j in before.jobs { StepAgrees(before, steps[n], j); } else { NewJobIsFresh(before, steps[n], j); }
    }
  }

  /** In every run of guarded steps from an empty database, all jobs agree with their offers. */
  lemma {:induction false} AgreementUpTo(steps: seq<Step>, n: nat)
    requires n <= |steps| && forall m :: 0 <= m < n ==> GuardedAt(steps, m)
    ensures AllAgree(Run(EMPTY, steps[..n]))
  {
    if n > 0 {
      AgreementUpTo(steps, n - 1);
      StepAllAgree(steps, n - 1);
    }
  }

  lemma AgreementOverRuns(steps: seq<Step>)
    requires AllGuarded(steps)
    ensures AllAgree(Run(EMPTY, steps))
  {
    AgreementUpTo(steps, |steps|);
    assert steps[..|steps|] == steps;
  }

  /** And in no others: all jobs agree with their offers throughout a run if and only if every patch
      in it that names a mechanic is not let through or names the one the job has. */
  lemma AgreementOverRunsIff(steps: seq<Step>)
    ensures AllGuarded(steps) <==> forall n :: 0 <= n <= |steps| ==> AllAgree(Run(EMPTY, steps[..n]))
  {
    if AllGuarded(steps) {
      forall n | 0 <= n <= |steps|
        ensures AllAgree(Run(EMPTY, steps[..n]))
      {
        AgreementUpTo(steps, n);
      }
    } else {
      var n :| 0 <= n < |steps| && !GuardedAt(steps, n);
      var before, step := Run(EMPTY, steps[..n]), steps[n];
      RunPrefix(EMPTY, steps, n);
      if AllAgree(before) {
        PatchKeepsAgreementIff(before, step.job, step.target, step.mechanicId);
        assert !Agrees(Run(EMPTY, steps[..n + 1]), step.job);
      }
    }
  }

  /** The shortest such run: a patch assigns a mechanic to whom nothing was offered. */
  lemma PatchCanAssignAnybody(j: JobId, user: UserId, m: ProviderId)
    ensures var steps := [Hail(j, user), Patch(j, Assigned, Some(m))];
            var db := Run(EMPTY, steps);
            && j in db.jobs && db.jobs[j].mechanicId == Some(m) && db.offers == map[]
            && !AllGuarded(steps) && !AllAgree(db)
  {
    var a, b := Hail(j, user), Patch(j, Assigned, Some(m));
    RunFour(EMPTY, a, b, a, b);
    assert [a, b][..1] == [a];
    assert !GuardedAt([a, b], 1);
    assert !Agrees(Run(EMPTY, [a, b]), j);
  }

  /** A job has an assignee exactly when one of its offers is accepted; that offer is the only one;
      it names the assigned type and id; and exactly one id is set. */
  ghost predicate AssigneeMatchesOffers(db: Db, j: JobId)
    requires j in db.jobs
  {
    var job := db.jobs[j];
    && ((job.mechanicId.Some? || job.garageId.Some?) <==> exists p :: HasAccepted(db, j, p))
    && (forall p :: HasAccepted(db, j, p) ==> Names(job, p))
    && (forall p, q :: HasAccepted(db, j, p) && HasAccepted(db, j, q) ==> p == q)
    && !(job.mechanicId.Some? && job.garageId.Some?)
  }

  lemma AgreementMeans(db: Db, j: JobId)
    requires j in db.jobs && Agrees(db, j)
    ensures AssigneeMatchesOffers(db, j)
  {
  }

  /** So it is in every run of guarded steps from an empty database. */
  lemma AssigneeIffAccepted(steps: seq<Step>, j: JobId)
    requires AllGuarded(steps) && j in Run(EMPTY, steps).jobs
    ensures AssigneeMatchesOffers(Run(EMPTY, steps), j)
  {
    AgreementOverRuns(steps);
    AgreementMeans(Run(EMPTY, steps), j);
  }

  /** A patch keeps the agreement exactly when it is guarded: not let through, or it names nobody or
      the mechanic the job already has. */
  lemma PatchKeepsAgreementIff(db: Db, j: JobId, target: Status, mechanicId: Option<ProviderId>)
    requires j in db.jobs && Agrees(db, j)
    ensures j in PatchStep(db, j, target, mechanicId).0.jobs
    ensures Agrees(PatchStep(db, j, target, mechanicId).0, j)
            <==> !ValidateTransition(db.jobs[j].status, target) || mechanicId.None? || mechanicId == db.jobs[j].mechanicId
  {
    var after := PatchStep(db, j, target, mechanicId).0;
    assert forall p :: HasAccepted(after, j, p) <==> HasAccepted(db, j, p);
    if !Unassigned(db.jobs[j]) {
      var p :| Names(db.jobs[j], p) && HasAccepted(db, j, p) && forall q :: HasAccepted(db, j, q) ==> q == p;
      assert HasAccepted(after, j, p);
    }
  }
}
