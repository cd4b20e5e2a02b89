/** The job service: the status guard, the bill, and the writers of a job row.

    Every writer reads the row, decides, and writes a few columns. The decision is a `Plan`
    computed from the row that was read, so that the same decision can be replayed both by a
    request that runs alone and by one whose read has gone stale (module Interleaving). */
module Jobs {
  import opened Records
  import opened Money

  const VALID_TRANSITIONS: map<Status, set<Status>> := map[
    Searching := {Assigned, Cancelled},
    Assigned := {EnRoute, PaymentPending, Cancelled},
    EnRoute := {InProgress, Completed, Cancelled},
    InProgress := {PaymentPending, Completed, Cancelled},
    PaymentPending := {Completed, Cancelled},
    Completed := {},
    Cancelled := {}
  ]

  predicate ValidateTransition(current: Status, target: Status) {
    current in VALID_TRANSITIONS && target in VALID_TRANSITIONS[current]
  }

  /** The order in which a job goes through its life. */
  function Rank(s: Status): nat {
    match s
    case Searching => 0
    case Assigned => 1
    case EnRoute => 2
    case InProgress => 3
    case PaymentPending => 4
    case Cancelled => 5
    case Completed => 6
  }

  /** Closed for every writer but a payment capture. */
  predicate Closed(s: Status) {
    s == Completed || s == Cancelled
  }

  /** The table, said by rank: an open job can be cancelled, can go one step forward up to
      in_progress, can be completed once the provider is under way, and can be billed while the
      provider is assigned or at work. */
  lemma TransitionTable(current: Status, target: Status)
    ensures ValidateTransition(current, target) <==>
            !Closed(current) &&
            match target
            case Searching => false
            case Cancelled => true
            case Completed => Rank(current) >= Rank(EnRoute)
            case PaymentPending => current == Assigned || current == InProgress
            case _ => Rank(target) == Rank(current) + 1
  {
  }

  // ---- Column writes -------------------------------------------------------------------------

  /** The columns one request writes: a status, an assignee, the bill. */
  datatype JobWrite = JobWrite(status: Status, assignee: Option<Provider>, pricing: Option<Pricing>)

  datatype Plan = Write(write: JobWrite) | Keep | Refuse

  /** Sets the assigned type and the id column of that type; the other id column is not touched. */
  function Assign(row: Job, p: Provider): Job {
    if p.kind == Mechanic
    then row.(assignedType := Some(Mechanic), mechanicId := Some(p.id))
    else row.(assignedType := Some(Garage), garageId := Some(p.id))
  }

  function ApplyWrite(row: Job, w: JobWrite): Job {
    var row := row.(status := w.status);
    var row := if w.assignee.Some? then Assign(row, w.assignee.value) else row;
    if w.pricing.Some? then row.(pricing := w.pricing.value) else row
  }

  function ApplyPlan(db: Db, j: JobId, plan: Plan): Db
    requires j in db.jobs
  {
    if plan.Write? then db.(jobs := db.jobs[j := ApplyWrite(db.jobs[j], plan.write)]) else db
  }

  function PlanOutcome(plan: Plan): Outcome {
    if plan.Refuse? then Conflict else Ok
  }

  // ---- Decisions -----------------------------------------------------------------------------

  function PatchPlan(seen: Job, target: Status, mechanicId: Option<ProviderId>): Plan {
    if !ValidateTransition(seen.status, target) then Refuse
    else if mechanicId.Some? && seen.mechanicId != mechanicId
    then Write(JobWrite(target, Some(Provider(Mechanic, mechanicId.value)), None))
    else Write(JobWrite(target, None, None))
  }

  function CompletePlan(seen: Job): Plan {
    if seen.status == Cancelled then Refuse
    else if seen.status == Completed then Keep
    else Write(JobWrite(Completed, None, None))
  }

  function CancelPlan(seen: Job): Plan {
    if Closed(seen.status) then Keep else Write(JobWrite(Cancelled, None, None))
  }

  // ---- The bill ------------------------------------------------------------------------------

  const CONVENIENCE_FEE := 40.0
  const CANCELLATION_FEE := 30.0
  const DAY_RATE_PER_KM := 1.0
  const NIGHT_RATE_PER_KM := 2.0
  const GST_RATE := 0.18

  /** Night is from 20:00 to 06:00 in India. */
  predicate IsNight(hour: nat) {
    hour >= 20 || hour < 6
  }

  function RatePerKm(night: bool): real {
    if night then NIGHT_RATE_PER_KM else DAY_RATE_PER_KM
  }

  function DistanceFee(km: real, night: bool): real {
    Round2(km * RatePerKm(night))
  }

  function Subtotal(service: real, km: real, night: bool): real {
    service + CONVENIENCE_FEE + CANCELLATION_FEE + DistanceFee(km, night)
  }

  function Gst(service: real, km: real, night: bool): real {
    Round2(Subtotal(service, km, night) * GST_RATE)
  }

  function Total(service: real, km: real, night: bool): real {
    Round2(Subtotal(service, km, night) + Gst(service, km, night))
  }

  function BillFor(service: real, km: real, night: bool): Pricing {
    Pricing(Some(service), Some(CONVENIENCE_FEE), Some(CANCELLATION_FEE), Some(km),
            Some(DistanceFee(km, night)), Some(Gst(service, km, night)), Some(Total(service, km, night)))
  }

  /** The assignee whose position is looked up: the mechanic if one is set, else the garage. */
  function BilledProvider(row: Job): Option<Provider> {
    if row.mechanicId.Some? then Some(Provider(Mechanic, row.mechanicId.value))
    else if row.garageId.Some? then Some(Provider(Garage, row.garageId.value))
    else None
  }

  /** Kilometres to that assignee to two decimals; 0 with no assignee or no such provider row.
      `metres` gives the distance from the customer to every provider that has a row. */
  function DistanceKm(row: Job, metres: map<Provider, real>): real {
    var p := BilledProvider(row);
    if p.Some? && p.value in metres then Round2(metres[p.value] / 1000.0) else 0.0
  }

  predicate Billable(s: Status) {
    s == Assigned || s == InProgress || s == EnRoute
  }

  function FinalizePlan(seen: Job, service: real, metres: map<Provider, real>, hour: nat): Plan {
    if !Billable(seen.status) then Refuse
    else Write(JobWrite(PaymentPending, None, Some(BillFor(service, DistanceKm(seen, metres), IsNight(hour)))))
  }

  // ---- Requests as steps ---------------------------------------------------------------------

  function PatchStep(db: Db, j: JobId, target: Status, mechanicId: Option<ProviderId>): (Db, Outcome) {
    if j !in db.jobs then (db, NotFound)
    else var plan := PatchPlan(db.jobs[j], target, mechanicId); (ApplyPlan(db, j, plan), PlanOutcome(plan))
  }

  function FinalizeStep(db: Db, j: JobId, service: real, metres: map<Provider, real>, hour: nat): (Db, Outcome) {
    if j !in db.jobs then (db, NotFound)
    else var plan := FinalizePlan(db.jobs[j], service, metres, hour); (ApplyPlan(db, j, plan), PlanOutcome(plan))
  }

  function CompleteStep(db: Db, j: JobId): (Db, Outcome) {
    if j !in db.jobs then (db, NotFound)
    else var plan := CompletePlan(db.jobs[j]); (ApplyPlan(db, j, plan), PlanOutcome(plan))
  }

  function CancelStep(db: Db, j: JobId): (Db, Outcome) {
    if j !in db.jobs then (db, NotFound)
    else var plan := CancelPlan(db.jobs[j]); (ApplyPlan(db, j, plan), PlanOutcome(plan))
  }

  // ---- The service methods -------------------------------------------------------------------

  method PatchJobStatus(db: Database, j: JobId, status: Status, mechanicId: Option<ProviderId>)
    returns (outcome: Outcome)
    modifies db
    ensures (db.View(), outcome) == PatchStep(old(db.View()), j, status, mechanicId)
  {
    if j !in db.jobs {
      return NotFound;
    }
    var job := db.jobs[j];
    if !ValidateTransition(job.status, status) {
      return Conflict;
    }
    job := job.(status := status);
    if mechanicId.Some? && job.mechanicId != mechanicId {
      job := job.(mechanicId := mechanicId);
      job := job.(assignedType := Some(Mechanic));
    }
    db.jobs := db.jobs[j := job];
    return Ok;
  }

  method FinalizeJobPrice(db: Database, j: JobId, serviceAmount: real, metres: map<Provider, real>, hour: nat)
    returns (outcome: Outcome)
    modifies db
    ensures (db.View(), outcome) == FinalizeStep(old(db.View()), j, serviceAmount, metres, hour)
  {
    if j !in db.jobs {
      return NotFound;
    }
    var job := db.jobs[j];
    if job.status !in {Assigned, InProgress, EnRoute} {
      return Conflict;
    }
    var distanceM: Option<real> := None;
    if job.mechanicId.Some? {
      var p := Provider(Mechanic, job.mechanicId.value);
      if p in metres { distanceM := Some(metres[p]); }
    } else if job.garageId.Some? {
      var p := Provider(Garage, job.garageId.value);
      if p in metres { distanceM := Some(metres[p]); }
    }
    var distanceKm := 0.0;
    if distanceM.Some? {
      distanceKm := Round2(distanceM.value / 1000.0);
    }
    assert distanceKm == DistanceKm(job, metres);
    var isNight := IsNight(hour);
    var distanceFee := DistanceFee(distanceKm, isNight);
    var gstAmount := Gst(serviceAmount, distanceKm, isNight);
    var totalAmount := Total(serviceAmount, distanceKm, isNight);
    job := job.(pricing := Pricing(Some(serviceAmount), Some(CONVENIENCE_FEE), Some(CANCELLATION_FEE),
      Some(distanceKm), Some(distanceFee), Some(gstAmount), Some(totalAmount)));
    job := job.(status := PaymentPending);
    db.jobs := db.jobs[j := job];
    return Ok;
  }

  method CompleteJobWithPayment(db: Database, j: JobId) returns (outcome: Outcome)
    modifies db
    ensures (db.View(), outcome) == CompleteStep(old(db.View()), j)
  {
    if j !in db.jobs {
      return NotFound;
    }
    var job := db.jobs[j];
    if job.status == Cancelled {
      return Conflict;
    }
    if job.status != Completed {
      db.jobs := db.jobs[j := job.(status := Completed)];
    }
    return Ok;
  }

  method CancelJob(db: Database, j: JobId) returns (outcome: Outcome)
    modifies db
    ensures (db.View(), outcome) == CancelStep(old(db.View()), j)
  {
    if j !in db.jobs {
      return NotFound;
    }
    var job := db.jobs[j];
    if job.status in {Completed, Cancelled} {
      return Ok;
    }
    db.jobs := db.jobs[j := job.(status := Cancelled)];
    return Ok;
  }

  // ---- What the bill promises ----------------------------------------------------------------

  /** The total is within one paisa of 118% of the untaxed lines. */
  lemma TotalWithinOnePaisa(service: real, km: real, night: bool)
    ensures -PAISA <= Total(service, km, night) - 1.18 * (service + 70.0 + DistanceFee(km, night)) <= PAISA
  {
  }

  /** The invoice adds up exactly when the service amount is whole paise. */
  lemma InvoiceAddsUp(service: real, km: real, night: bool)
    ensures Total(service, km, night)
            == service + CONVENIENCE_FEE + CANCELLATION_FEE + DistanceFee(km, night) + Gst(service, km, night)
            <==> WholePaise(service)
  {
    var lines := 70.0 + DistanceFee(km, night) + Gst(service, km, night);
    WholePaiseAdd(DistanceFee(km, night), Gst(service, km, night));
    assert WholePaise(70.0) by { assert Whole(7000.0); }
    WholePaiseAdd(70.0, DistanceFee(km, night) + Gst(service, km, night));
    assert 70.0 + (DistanceFee(km, night) + Gst(service, km, night)) == lines;
    WholePaiseAdd(lines, service);
    WholePaiseFixed(service + lines);
    assert lines + service == service + lines;
  }

  /** The way costs a rupee a kilometre by day and two by night, up to the rounding. */
  lemma NightDoubles(km: real)
    ensures -PAISA / 2.0 <= DistanceFee(km, false) - km <= PAISA / 2.0
    ensures -1.5 * PAISA <= DistanceFee(km, true) - 2.0 * DistanceFee(km, false) <= 1.5 * PAISA
  {
  }

  /** A dearer service, a longer way, or the night rate never lowers the bill. */
  lemma TotalMonotone(service: real, service': real, km: real, km': real, night: bool, night': bool)
    requires service <= service' && 0.0 <= km <= km' && (night ==> night')
    ensures DistanceFee(km, night) <= DistanceFee(km', night')
    ensures Total(service, km, night) <= Total(service', km', night')
  {
    assert km * RatePerKm(night) <= km' * RatePerKm(night');
    RoundMonotone(km * RatePerKm(night), km' * RatePerKm(night'));
    RoundMonotone(Subtotal(service, km, night) * GST_RATE, Subtotal(service', km', night') * GST_RATE);
    RoundMonotone(Subtotal(service, km, night) + Gst(service, km, night),
                  Subtotal(service', km', night') + Gst(service', km', night'));
  }

  // ---- What each writer answers and writes ---------------------------------------------------

  /** A patch that the guard lets through sets the status, and the mechanic if it names one; a type
      is set only for a mechanic that is new. Any other changes nothing. */
  lemma PatchLaw(db: Db, j: JobId, target: Status, m: Option<ProviderId>)
    ensures var (after, outcome) := PatchStep(db, j, target, m);
            if j !in db.jobs then outcome == NotFound && after == db
            else if !ValidateTransition(db.jobs[j].status, target) then outcome == Conflict && after == db
            else
              var row := db.jobs[j];
              && outcome == Ok
              && after == db.(jobs := db.jobs[j := row.(
                   status := target,
                   mechanicId := if m == None then row.mechanicId else m,
                   assignedType := if m == None || m == row.mechanicId then row.assignedType else Some(Mechanic))])
  {
  }

  /** Completing fails for a cancelled job only, cancelling never; neither touches anything but the
      status, and neither moves a closed job. */
  lemma CompleteAndCancelLaw(db: Db, j: JobId)
    requires j in db.jobs
    ensures var row, (after, outcome) := db.jobs[j], CompleteStep(db, j);
            && (outcome == Ok <==> row.status != Cancelled)
            && after == db.(jobs := db.jobs[j := row.(status := if row.status == Cancelled then Cancelled else Completed)])
    ensures var row, (after, outcome) := db.jobs[j], CancelStep(db, j);
            && outcome == Ok
            && after == db.(jobs := db.jobs[j := row.(status := if row.status == Completed then Completed else Cancelled)])
  {
    assert db.jobs == db.jobs[j := db.jobs[j]];
  }

  /** A job is billed exactly when it is assigned, en route or in progress; nothing but its bill and
      its status changes. */
  lemma FinalizeLaw(db: Db, j: JobId, service: real, metres: map<Provider, real>, hour: nat)
    ensures var (after, outcome) := FinalizeStep(db, j, service, metres, hour);
            && (outcome == Ok <==> j in db.jobs && db.jobs[j].status in {Assigned, EnRoute, InProgress})
            && (outcome != Ok ==> after == db)
            && (outcome == Ok ==>
                  && j in after.jobs
                  && after == db.(jobs := db.jobs[j := db.jobs[j].(
                       status := PaymentPending, pricing := after.jobs[j].pricing)]))
  {
  }

  /** The columns of a bill by the distance to the assignee (the mechanic if there is one, else the
      garage; none if that one has no row) and the hour: a rupee a kilometre from six to eight in the
      evening, two from eight to six. */
  lemma BillColumns(db: Db, j: JobId, service: real, metres: map<Provider, real>, hour: nat, way: real)
    requires FinalizeStep(db, j, service, metres, hour).1 == Ok && hour < 24
    requires j in db.jobs
    requires var job := db.jobs[j];
             && (forall m :: job.mechanicId == Some(m) && Provider(Mechanic, m) in metres ==>
                   way == metres[Provider(Mechanic, m)])
             && (forall m :: job.mechanicId == Some(m) && Provider(Mechanic, m) !in metres ==> way == 0.0)
             && (forall g :: job.mechanicId == None && job.garageId == Some(g) && Provider(Garage, g) in metres ==>
                   way == metres[Provider(Garage, g)])
             && (forall g :: job.mechanicId == None && job.garageId == Some(g) && Provider(Garage, g) !in metres ==>
                   way == 0.0)
             && (job.mechanicId == None && job.garageId == None ==> way == 0.0)
    ensures var after := FinalizeStep(db, j, service, metres, hour).0;
            j in after.jobs &&
            var bill := after.jobs[j].pricing;
            && bill.service == Some(service) && bill.convenience == Some(40.0) && bill.cancellation == Some(30.0)
            && bill.distanceKm.Some? && bill.distanceFee.Some? && bill.gst.Some? && bill.total.Some?
            && var fee, lines := bill.distanceFee.value, service + 70.0 + bill.distanceFee.value;
            && -0.005 <= bill.distanceKm.value - way / 1000.0 <= 0.005
            && (6 <= hour <= 19 ==> -0.01 <= fee - way / 1000.0 <= 0.01)
            && (hour <= 5 || hour >= 20 ==> -0.015 <= fee - way / 500.0 <= 0.015)
            && -0.005 <= bill.gst.value - 0.18 * lines <= 0.005
            && -0.005 <= bill.total.value - lines - bill.gst.value <= 0.005
            && WholePaise(fee) && WholePaise(bill.gst.value) && WholePaise(bill.total.value)
  {
    assert DistanceKm(db.jobs[j], metres) == Round2(way / 1000.0) by {
      assert Round2(0.0) == 0.0 by { assert Whole(0.0); WholePaiseFixed(0.0); }
    }
  }
}
