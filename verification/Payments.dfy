/** The payment routes: orders, the two capture paths, cash, escrow, refunds, and the payout that a
    capture triggers. Signature checks and gateway replies are inputs. */
module Payments {
  import opened Records
  import opened Money
  import opened Jobs

  predicate ValidAmount(amount: int) {
    100 <= amount <= 50_000_000
  }

  /** The positions of the rows a query selects, oldest first. */
  function Positions(keep: Payment -> bool, rows: seq<Payment>): (r: seq<nat>)
    ensures forall a :: 0 <= a < |r| ==> r[a] < |rows| && keep(rows[r[a]])
    ensures forall i :: 0 <= i < |rows| && keep(rows[i]) ==> i in r
    ensures forall a, b :: 0 <= a < b < |r| ==> r[a] < r[b]
  {
    if rows == [] then []
    else
      var rest := Positions(keep, rows[..|rows| - 1]);
      if keep(rows[|rows| - 1]) then rest + [|rows| - 1] else rest
  }

  function WithOrder(order: string): Payment -> bool {
    (p: Payment) => p.orderId == Some(order)
  }

  function OpenFor(j: JobId): Payment -> bool {
    (p: Payment) => p.job == j && (p.status == Captured || p.status == Awaiting)
  }

  function HeldFor(j: JobId): Payment -> bool {
    (p: Payment) => p.job == j && p.status == Held
  }

  function NamedFor(j: JobId, gatewayId: string): Payment -> bool {
    (p: Payment) => p.job == j && p.gatewayId == Some(gatewayId)
  }

  // ---- Payout --------------------------------------------------------------------------------

  /** What capturing payment i of the job routes: nothing without a bill (or with a zero in it). */
  function PayoutsOf(i: nat, pricing: Pricing): seq<Payout> {
    if pricing.service.None? || pricing.service.value == 0.0 || pricing.total.None? || pricing.total.value == 0.0
    then []
    else [Payout(i, pricing.service.value, pricing.total.value - pricing.service.value)]
  }

  method ProcessPayouts(db: Database, i: nat, job: Job)
    modifies db`payouts
    ensures db.payouts == old(db.payouts) + PayoutsOf(i, job.pricing)
  {
    var p := job.pricing;
    if p.service.None? || p.service.value == 0.0 || p.total.None? || p.total.value == 0.0 {
      return;
    }
    var providerAmount := p.service.value;
    var platformAmount := p.total.value - p.service.value;
    db.payouts := db.payouts + [Payout(i, providerAmount, platformAmount)];
  }

  // ---- Decisions about the job ---------------------------------------------------------------

  /** A capture completes any job that is not completed, a cancelled one too. */
  function CapturePlan(seen: Job): Plan {
    if seen.status == Completed then Keep else Write(JobWrite(Completed, None, None))
  }

  function CashPlan(seen: Job): Plan {
    if Closed(seen.status) then Refuse else Write(JobWrite(Completed, None, None))
  }

  // ---- Requests as steps ---------------------------------------------------------------------

  /** An order or, with the channel "qr", a QR code; `order` is the gateway's id, None its failure. */
  function CreateStep(db: Db, j: JobId, user: UserId, amount: int, order: Option<string>, channel: Option<string>)
    : (Db, Outcome)
  {
    if !ValidAmount(amount) then (db, Unprocessable)
    else if j !in db.jobs || db.jobs[j].owner != user then (db, NotFound)
    else if order.None? then (db, BadGateway)
    else (db.(payments := db.payments + [Payment(j, user, amount, Awaiting, channel, order, None)]), Ok)
  }

  /** Marks payment i captured, completes its job, triggers the payout. */
  function Capture(db: Db, i: nat, gatewayId: Option<string>, channel: Option<string>): Db
    requires i < |db.payments|
  {
    var p := db.payments[i];
    var paid := db.(payments := db.payments[i := p.(status := Captured, gatewayId := gatewayId, channel := channel)]);
    if p.job !in db.jobs then paid
    else
      var job := db.jobs[p.job];
      ApplyPlan(paid, p.job, CapturePlan(job)).(payouts := db.payouts + PayoutsOf(i, job.pricing))
  }

  function VerifyStep(db: Db, i: nat, user: UserId, gatewayId: string): (Db, Outcome) {
    if i >= |db.payments| || db.payments[i].user != user then (db, NotFound)
    else if db.payments[i].status == Captured then (db, Ok)
    else (Capture(db, i, Some(gatewayId), Some("online")), Ok)
  }

  datatype Event = CaptureEvent | FailureEvent | OtherEvent

  /** The gateway's notice about one order. Two rows with its order id make the lookup fail. */
  function WebhookStep(db: Db, event: Event, order: Option<string>, gatewayId: Option<string>, channel: string)
    : (Db, Outcome)
  {
    if order.None? || order.value == "" then (db, Ok)
    else
      var found := Positions(WithOrder(order.value), db.payments);
      if |found| > 1 then (db, ServerError)
      else if |found| == 0 then (db, Ok)
      else if event == CaptureEvent && db.payments[found[0]].status != Captured
      then (Capture(db, found[0], gatewayId, Some(channel)), Ok)
      else if event == FailureEvent && db.payments[found[0]].status == Awaiting
      then (db.(payments := db.payments[found[0] := db.payments[found[0]].(status := Failed)]), Ok)
      else (db, Ok)
  }

  function CashStep(db: Db, j: JobId, caller: Caller, amount: int): (Db, Outcome) {
    if !ValidAmount(amount) then (db, Unprocessable)
    else if j !in db.jobs then (db, NotFound)
    else
      var plan := CashPlan(db.jobs[j]);
      var existing := Positions(OpenFor(j), db.payments);
      if plan.Refuse? then (db, Conflict)
      else if |existing| > 1 then (db, ServerError)
      else if |existing| == 1 then (db, Conflict)
      else if !CanSee(db.jobs[j], caller) then (db, Forbidden)
      else
        var row := Payment(j, db.jobs[j].owner, amount, Captured, Some("cash"), None, None);
        (ApplyPlan(db, j, plan).(payments := db.payments + [row]), Ok)
  }

  function HoldStep(db: Db, j: JobId, caller: Caller, channel: string, amount: real, tx: Option<string>): (Db, Outcome) {
    if caller.role != Customer then (db, Forbidden)
    else if j !in db.jobs || !CanSee(db.jobs[j], caller) then (db, NotFound)
    else if db.jobs[j].status != PaymentPending && db.jobs[j].status != InProgress then (db, Conflict)
    else
      var row := Payment(j, caller.id, RoundHalfEven(amount * 100.0), Held, Some(channel), None, tx);
      (db.(payments := db.payments + [row]), Ok)
  }

  /** The rows a release may pick: those with the given gateway id, else the held ones. */
  function CandidateFor(j: JobId, gatewayId: Option<string>): Payment -> bool {
    if gatewayId.Some? && gatewayId.value != "" then NamedFor(j, gatewayId.value) else HeldFor(j)
  }

  /** The row a release picks: the newest held one, or one with the given gateway id. Of several of
      those the query may return any first: it is the one at `choice` in order of creation, if there
      are so many. */
  function Releasable(db: Db, j: JobId, gatewayId: Option<string>, choice: nat): (r: Option<nat>)
    ensures r.Some? ==> r.value < |db.payments| && CandidateFor(j, gatewayId)(db.payments[r.value])
    ensures r.None? ==> forall i :: 0 <= i < |db.payments| ==> !CandidateFor(j, gatewayId)(db.payments[i])
    ensures r.Some? && (gatewayId.None? || gatewayId.value == "") ==>
              forall i :: 0 <= i < |db.payments| && CandidateFor(j, gatewayId)(db.payments[i]) ==> i <= r.value
  {
    var found := Positions(CandidateFor(j, gatewayId), db.payments);
    if found == [] then None
    else if gatewayId.Some? && gatewayId.value != "" && choice < |found| then Some(found[choice])
    else Some(found[|found| - 1])
  }

  /** Any row with the given gateway id may be the one. */
  lemma AnyMayBeReleased(db: Db, j: JobId, gatewayId: string, i: nat)
    requires i < |db.payments| && NamedFor(j, gatewayId)(db.payments[i]) && gatewayId != ""
    ensures exists choice: nat :: Releasable(db, j, Some(gatewayId), choice) == Some(i)
  {
    var found := Positions(CandidateFor(j, Some(gatewayId)), db.payments);
    assert i in found;
    var choice :| 0 <= choice < |found| && found[choice] == i;
    assert Releasable(db, j, Some(gatewayId), choice) == Some(i);
  }

  /** Refused by a cancelled job, in which case the released row is rolled back too. */
  function ReleaseStep(db: Db, j: JobId, caller: Caller, gatewayId: Option<string>, choice: nat): (Db, Outcome) {
    if caller.role != Customer then (db, Forbidden)
    else if j !in db.jobs || !CanSee(db.jobs[j], caller) then (db, NotFound)
    else
      var pick := Releasable(db, j, gatewayId, choice);
      var plan := CompletePlan(db.jobs[j]);
      if pick.None? then (db, NotFound)
      else if plan.Refuse? then (db, ServerError)
      else
        var i := pick.value;
        (ApplyPlan(db, j, plan).(payments := db.payments[i := db.payments[i].(status := Released)]), Ok)
  }

  function RefundStep(db: Db, i: nat): (Db, Outcome) {
    if i >= |db.payments| then (db, NotFound)
    else if db.payments[i].status != Captured then (db, BadRequest)
    else (db.(payments := db.payments[i := db.payments[i].(status := Refunded)]), Ok)
  }

  // ---- The routes ----------------------------------------------------------------------------

  method PaymentCreate(db: Database, j: JobId, user: UserId, amount: int, order: Option<string>, channel: Option<string>)
    returns (outcome: Outcome)
    modifies db
    ensures (db.View(), outcome) == CreateStep(old(db.View()), j, user, amount, order, channel)
  {
    if amount < 100 || amount > 50_000_000 {
      return Unprocessable;
    }
    if j !in db.jobs || db.jobs[j].owner != user {
      return NotFound;
    }
    if order.None? {
      return BadGateway;
    }
    db.payments := db.payments + [Payment(j, user, amount, Awaiting, channel, order, None)];
    return Ok;
  }

  /** The capture that verify and webhook share. */
  method CapturePayment(db: Database, i: nat, gatewayId: Option<string>, channel: Option<string>)
    requires i < |db.payments|
    modifies db
    ensures db.View() == Capture(old(db.View()), i, gatewayId, channel)
  {
    var pmt := db.payments[i];
    pmt := pmt.(status := Captured);
    pmt := pmt.(gatewayId := gatewayId);
    pmt := pmt.(channel := channel);
    db.payments := db.payments[i := pmt];
    if pmt.job in db.jobs {
      var job := db.jobs[pmt.job];
      if job.status != Completed {
        db.jobs := db.jobs[pmt.job := job.(status := Completed)];
      }
      ProcessPayouts(db, i, job);
    }
  }

  method PaymentVerify(db: Database, i: nat, user: UserId, gatewayId: string) returns (outcome: Outcome)
    modifies db
    ensures (db.View(), outcome) == VerifyStep(old(db.View()), i, user, gatewayId)
  {
    if i >= |db.payments| || db.payments[i].user != user {
      return NotFound;
    }
    if db.payments[i].status == Captured {
      return Ok;
    }
    CapturePayment(db, i, Some(gatewayId), Some("online"));
    return Ok;
  }

  method PaymentWebhook(db: Database, event: Event, order: Option<string>, gatewayId: Option<string>, channel: string)
    returns (outcome: Outcome)
    modifies db
    ensures (db.View(), outcome) == WebhookStep(old(db.View()), event, order, gatewayId, channel)
  {
    if order.None? || order.value == "" {
      return Ok;
    }
    var found := Positions(WithOrder(order.value), db.payments);
    if |found| > 1 {
      return ServerError;
    }
    if |found| == 0 {
      return Ok;
    }
    var i := found[0];
    if event == CaptureEvent && db.payments[i].status != Captured {
      CapturePayment(db, i, gatewayId, Some(channel));
    } else if event == FailureEvent && db.payments[i].status == Awaiting {
      db.payments := db.payments[i := db.payments[i].(status := Failed)];
    }
    return Ok;
  }

  method CashPayment(db: Database, j: JobId, caller: Caller, amount: int) returns (outcome: Outcome)
    modifies db
    ensures (db.View(), outcome) == CashStep(old(db.View()), j, caller, amount)
  {
    if amount < 100 || amount > 50_000_000 {
      return Unprocessable;
    }
    if j !in db.jobs {
      return NotFound;
    }
    var job := db.jobs[j];
    if job.status in {Completed, Cancelled} {
      return Conflict;
    }
    var existing := Positions(OpenFor(j), db.payments);
    if |existing| > 1 {
      return ServerError;
    }
    if |existing| == 1 {
      return Conflict;
    }
    if !CanSee(job, caller) {
      return Forbidden;
    }
    db.payments := db.payments + [Payment(j, job.owner, amount, Captured, Some("cash"), None, None)];
    db.jobs := db.jobs[j := job.(status := Completed)];
    return Ok;
  }

  method HoldPayment(db: Database, j: JobId, caller: Caller, channel: string, amount: real, tx: Option<string>)
    returns (outcome: Outcome)
    modifies db
    ensures (db.View(), outcome) == HoldStep(old(db.View()), j, caller, channel, amount, tx)
  {
    if caller.role != Customer {
      return Forbidden;
    }
    if j !in db.jobs || !CanSee(db.jobs[j], caller) {
      return NotFound;
    }
    if db.jobs[j].status !in {PaymentPending, InProgress} {
      return Conflict;
    }
    var paise := RoundHalfEven(amount * 100.0);
    db.payments := db.payments + [Payment(j, caller.id, paise, Held, Some(channel), None, tx)];
    return Ok;
  }

  method ReleasePayment(db: Database, j: JobId, caller: Caller, gatewayId: Option<string>, choice: nat)
    returns (outcome: Outcome)
    modifies db
    ensures (db.View(), outcome) == ReleaseStep(old(db.View()), j, caller, gatewayId, choice)
  {
    if caller.role != Customer {
      return Forbidden;
    }
    if j !in db.jobs || !CanSee(db.jobs[j], caller) {
      return NotFound;
    }
    var pick := Releasable(db.View(), j, gatewayId, choice);
    if pick.None? {
      return NotFound;
    }
    if db.jobs[j].status == Cancelled {
      return ServerError;
    }
    var i := pick.value;
    db.payments := db.payments[i := db.payments[i].(status := Released)];
    var completed := CompleteJobWithPayment(db, j);
    return Ok;
  }

  method RefundPayment(db: Database, i: nat) returns (outcome: Outcome)
    modifies db
    ensures (db.View(), outcome) == RefundStep(old(db.View()), i)
  {
    if i >= |db.payments| {
      return NotFound;
    }
    if db.payments[i].status != Captured {
      return BadRequest;
    }
    db.payments := db.payments[i := db.payments[i].(status := Refunded)];
    return Ok;
  }

  // ---- What each route answers and writes ----------------------------------------------------

  /** An order is made exactly for the owner of the job, for a rupee to five lakh, when the gateway
      answers; it is a new pending row. */
  lemma CreateLaw(db: Db, j: JobId, user: UserId, amount: int, order: Option<string>, channel: Option<string>)
    ensures var (after, outcome) := CreateStep(db, j, user, amount, order, channel);
            && (outcome == Ok <==>
                  100 <= amount <= 50_000_000 && j in db.jobs && db.jobs[j].owner == user && order != None)
            && (outcome != Ok ==> after == db)
            && (outcome == Ok ==>
                  after == db.(payments := db.payments + [Payment(j, user, amount, Awaiting, channel, order, None)]))
  {
  }

  /** A payout is due exactly when service amount and total are set and not zero. */
  lemma PayoutsIff(i: nat, pricing: Pricing)
    ensures PayoutsOf(i, pricing) != [] <==>
            exists s, t :: pricing.service == Some(s) && pricing.total == Some(t) && s != 0.0 && t != 0.0
    ensures forall s, t :: pricing.service == Some(s) && pricing.total == Some(t) && s != 0.0 && t != 0.0 ==>
              PayoutsOf(i, pricing) == [Payout(i, s, t - s)]
  {
  }

  /** A capture writes three columns of its payment, the status of its job, and the payout; nothing
      else. */
  lemma CaptureLaw(db: Db, i: nat, gatewayId: Option<string>, channel: Option<string>)
    requires i < |db.payments| && db.payments[i].job in db.jobs
    ensures var p, after := db.payments[i], Capture(db, i, gatewayId, channel);
            after == Db(db.jobs[p.job := db.jobs[p.job].(status := Completed)],
                        db.offers,
                        db.payments[i := Payment(p.job, p.user, p.amount, Captured, channel, p.orderId, gatewayId)],
                        db.payouts + PayoutsOf(i, db.jobs[p.job].pricing))
  {
    assert db.jobs == db.jobs[db.payments[i].job := db.jobs[db.payments[i].job]];
  }

  /** A confirmation is accepted exactly from the payer; the first one captures. */
  lemma VerifyLaw(db: Db, i: nat, user: UserId, gatewayId: string)
    ensures var (after, outcome) := VerifyStep(db, i, user, gatewayId);
            && (outcome == Ok <==> i < |db.payments| && db.payments[i].user == user)
            && after == if outcome == Ok && db.payments[i].status != Captured
                        then Capture(db, i, Some(gatewayId), Some("online")) else db
  {
  }

  /** A notice changes something exactly when one payment has the order id, and it is a capture of one
      not captured, or a failure of one pending. */
  lemma WebhookLaw(db: Db, event: Event, order: string, gatewayId: Option<string>, channel: string, i: nat)
    requires i < |db.payments| && db.payments[i].orderId == Some(order)
    requires forall k :: 0 <= k < |db.payments| && db.payments[k].orderId == Some(order) ==> k == i
    ensures WebhookStep(db, event, Some(order), gatewayId, channel)
            == (if order != "" && event == CaptureEvent && db.payments[i].status != Captured
                then Capture(db, i, gatewayId, Some(channel))
                else if order != "" && event == FailureEvent && db.payments[i].status == Awaiting
                then db.(payments := db.payments[i := db.payments[i].(status := Failed)])
                else db, Ok)
  {
    var found := Positions(WithOrder(order), db.payments);
    assert WithOrder(order)(db.payments[i]) && i in found;
    forall a | 0 <= a < |found|
      ensures found[a] == i
    {
      assert WithOrder(order)(db.payments[found[a]]);
    }
    assert found[0] == i && found[|found| - 1] == i;
  }

  /** Cash is taken exactly for a rupee to five lakh, for an open job without a captured or pending
      payment, from who can see the job. */
  lemma CashLaw(db: Db, j: JobId, caller: Caller, amount: int)
    ensures var (after, outcome) := CashStep(db, j, caller, amount);
            && (outcome == Ok <==>
                  && 100 <= amount <= 50_000_000 && j in db.jobs && CanSee(db.jobs[j], caller)
                  && db.jobs[j].status != Completed && db.jobs[j].status != Cancelled
                  && forall i :: 0 <= i < |db.payments| && db.payments[i].job == j ==>
                       db.payments[i].status != Captured && db.payments[i].status != Awaiting)
            && (outcome != Ok ==> after == db)
            && (outcome == Ok ==>
                  after == db.(
                    jobs := db.jobs[j := db.jobs[j].(status := Completed)],
                    payments := db.payments + [Payment(j, db.jobs[j].owner, amount, Captured, Some("cash"), None, None)]))
  {
    var existing := Positions(OpenFor(j), db.payments);
    if existing == [] {
      assert forall i :: 0 <= i < |db.payments| ==> !OpenFor(j)(db.payments[i]);
    } else {
      assert OpenFor(j)(db.payments[existing[0]]);
    }
  }

  /** A hold is made exactly by a customer who can see the job, while it is in progress or billed; the
      row holds the rupees in paise, rounded. */
  lemma HoldLaw(db: Db, j: JobId, caller: Caller, channel: string, rupees: real, tx: Option<string>)
    ensures var (after, outcome) := HoldStep(db, j, caller, channel, rupees, tx);
            && (outcome == Ok <==>
                  && caller.role == Customer && j in db.jobs && CanSee(db.jobs[j], caller)
                  && db.jobs[j].status in {InProgress, PaymentPending})
            && (outcome != Ok ==> after == db)
            && (outcome == Ok ==>
                  && |after.payments| == |db.payments| + 1
                  && var p := after.payments[|db.payments|];
                  && after == db.(payments := db.payments + [p])
                  && p == Payment(j, caller.id, p.amount, Held, Some(channel), None, tx)
                  && -0.5 <= p.amount as real - rupees * 100.0 <= 0.5)
  {
  }

  /** A release succeeds exactly for a customer who can see the job, while it is not cancelled and
      there is a row to release; then one such row is released, and the job completed. */
  lemma ReleaseLaw(db: Db, j: JobId, caller: Caller, gatewayId: Option<string>, choice: nat)
    ensures var (after, outcome) := ReleaseStep(db, j, caller, gatewayId, choice);
            && (outcome == Ok <==>
                  && caller.role == Customer && j in db.jobs && CanSee(db.jobs[j], caller)
                  && db.jobs[j].status != Cancelled
                  && exists i :: 0 <= i < |db.payments| && CandidateFor(j, gatewayId)(db.payments[i]))
            && (outcome != Ok ==> after == db)
            && (outcome == Ok ==>
                  exists i :: 0 <= i < |db.payments| && CandidateFor(j, gatewayId)(db.payments[i])
                    && after == db.(
                         jobs := db.jobs[j := db.jobs[j].(status := Completed)],
                         payments := db.payments[i := db.payments[i].(status := Released)]))
  {
    var pick := Releasable(db, j, gatewayId, choice);
    if ReleaseStep(db, j, caller, gatewayId, choice).1 == Ok {
      assert db.jobs == db.jobs[j := db.jobs[j]];
      assert CandidateFor(j, gatewayId)(db.payments[pick.value]);
    }
  }

  /** The rows a release may pick, by their columns. */
  lemma CandidateIff(j: JobId, gatewayId: Option<string>, p: Payment)
    ensures CandidateFor(j, gatewayId)(p) <==>
            p.job == j && if gatewayId.Some? && gatewayId != Some("") then p.gatewayId == gatewayId else p.status == Held
  {
  }

  /** A refund succeeds exactly for a captured payment, and writes its status. */
  lemma RefundLaw(db: Db, i: nat)
    ensures var (after, outcome) := RefundStep(db, i);
            && (outcome == Ok <==> i < |db.payments| && db.payments[i].status == Captured)
            && after == if outcome == Ok
                        then db.(payments := db.payments[i := db.payments[i].(status := Refunded)]) else db
  {
  }
}
