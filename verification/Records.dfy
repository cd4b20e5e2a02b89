/** The rows of the job, offer and payment tables, and the database session that the services
    update in place. */
module Records {

  datatype Option<+T> = None | Some(value: T)

  type JobId = nat
  type UserId = nat
  type ProviderId = nat
  /** Microseconds on the UTC clock. */
  type Instant = int

  datatype Status = Searching | Assigned | EnRoute | InProgress | PaymentPending | Completed | Cancelled

  datatype Kind = Mechanic | Garage
  datatype Provider = Provider(kind: Kind, id: ProviderId)

  datatype RequestType = Auto | OnlyMechanic | OnlyGarage

  /** The pricing columns of a job, each nullable on its own. */
  datatype Pricing = Pricing(
    service: Option<real>,
    convenience: Option<real>,
    cancellation: Option<real>,
    distanceKm: Option<real>,
    distanceFee: Option<real>,
    gst: Option<real>,
    total: Option<real>)

  const UNPRICED := Pricing(None, None, None, None, None, None, None)

  datatype Job = Job(
    owner: UserId,
    issueTag: string,
    requestType: RequestType,
    scheduledAt: Option<Instant>,
    status: Status,
    assignedType: Option<Kind>,
    mechanicId: Option<ProviderId>,
    garageId: Option<ProviderId>,
    pricing: Pricing)

  /** The unique key of an offer row: one row a job and provider. */
  datatype OfferKey = OfferKey(job: JobId, provider: Provider)
  datatype OfferStatus = Pending | Accepted | Declined
  datatype Offer = Offer(status: OfferStatus, expiresAt: Instant)

  datatype PayStatus = Awaiting | Captured | Failed | Held | Released | Refunded

  /** A payment row; rows are numbered in the order of their creation. */
  datatype Payment = Payment(
    job: JobId,
    user: UserId,
    amount: int,
    status: PayStatus,
    channel: Option<string>,
    orderId: Option<string>,
    gatewayId: Option<string>)

  /** One triggered payout: what goes to the provider and what to the platform. */
  datatype Payout = Payout(payment: nat, provider: real, platform: real)

  datatype Db = Db(
    jobs: map<JobId, Job>,
    offers: map<OfferKey, Offer>,
    payments: seq<Payment>,
    payouts: seq<Payout>)

  const EMPTY := Db(map[], map[], [], [])

  datatype Outcome =
    | Ok
    | NotFound | Conflict | Gone | Forbidden | Unprocessable | BadRequest | BadGateway | ServerError

  datatype Role = Customer | MechanicRole | GarageRole | Seller | Admin

  /** The authenticated user of a request, with the id of their provider profile if they have one. */
  datatype Caller = Caller(id: UserId, role: Role, profile: Option<ProviderId>, superuser: bool)

  /** Whether the caller is the mechanic or the garage the job is assigned to. */
  predicate IsAssignee(job: Job, caller: Caller) {
    caller.profile.Some? &&
    match caller.role
    case MechanicRole => job.mechanicId == caller.profile
    case GarageRole => job.garageId == caller.profile
    case _ => false
  }

  /** Whether a job lookup on behalf of the caller finds the job. */
  predicate CanSee(job: Job, caller: Caller) {
    caller.role == Admin || caller.superuser || job.owner == caller.id || IsAssignee(job, caller)
  }

  /** Admins, superusers, the owner, and the mechanic or garage whose own profile the job names. */
  lemma CanSeeIff(job: Job, caller: Caller)
    ensures CanSee(job, caller) <==>
            || caller.role == Admin || caller.superuser || caller.id == job.owner
            || (caller.role == MechanicRole && exists m :: caller.profile == job.mechanicId == Some(m))
            || (caller.role == GarageRole && exists g :: caller.profile == job.garageId == Some(g))
  {
  }

  class Database {
    var jobs: map<JobId, Job>
    var offers: map<OfferKey, Offer>
    var payments: seq<Payment>
    var payouts: seq<Payout>

    function View(): Db
      reads this
    {
      Db(jobs, offers, payments, payouts)
    }

    constructor ()
      ensures View() == EMPTY
    {
      jobs, offers, payments, payouts := map[], map[], [], [];
    }
  }
}
