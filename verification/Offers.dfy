/** The offer service: dispatch of a job to nearby providers, and the provider's answer. */
module Offers {
  import opened Records
  import opened Seqs
  import Jobs
  import Matching

  /** Fifteen minutes. */
  const OFFER_TTL: Instant := 15 * 60 * 1_000_000

  /** The four query results a dispatch may use: providers with the wanted expertise and the
      nearest of any kind, for mechanics and for garages. */
  datatype Shortlist = Shortlist(
    mechanics: seq<ProviderId>, anyMechanics: seq<ProviderId>,
    garages: seq<ProviderId>, anyGarages: seq<ProviderId>)

  /** Queries return up to 10 (up to 5 for the unfiltered extra) providers, none twice. */
  ghost predicate ValidShortlist(s: Shortlist) {
    && Distinct(s.mechanics) && Distinct(s.anyMechanics) && Distinct(s.garages) && Distinct(s.anyGarages)
    && |s.mechanics| <= 10 && |s.garages| <= 10 && |s.anyMechanics| <= 5 && |s.anyGarages| <= 5
  }

  /** The four queries of a dispatch for a job with the given tag, over the provider tables: ten by
      the mapped tag, five of any kind. */
  ghost predicate Queried(
      s: Shortlist, mechanics: seq<Matching.Row>, garages: seq<Matching.Row>, tag: string, radius: real)
  {
    var wanted := Matching.IssueTagToExpertise(tag);
    && Matching.Answers(mechanics, Matching.Query(wanted, 10, radius, Matching.MECHANIC_BONUS), s.mechanics)
    && Matching.Answers(mechanics, Matching.Query(None, 5, radius, Matching.MECHANIC_BONUS), s.anyMechanics)
    && Matching.Answers(garages, Matching.Query(wanted, 10, radius, Matching.GARAGE_BONUS), s.garages)
    && Matching.Answers(garages, Matching.Query(None, 5, radius, Matching.GARAGE_BONUS), s.anyGarages)
  }

  /** Whichever of the ranking algorithms answers, a dispatch gets lists it can rely on. */
  lemma QueriesAreValid(
      s: Shortlist, mechanics: seq<Matching.Row>, garages: seq<Matching.Row>, tag: string, radius: real)
    requires Distinct(Map(Matching.RowId, mechanics)) && Distinct(Map(Matching.RowId, garages))
    requires Queried(s, mechanics, garages, tag, radius)
    ensures ValidShortlist(s)
  {
    var wanted := Matching.IssueTagToExpertise(tag);
    Matching.AnswersDistinct(mechanics, Matching.Query(wanted, 10, radius, Matching.MECHANIC_BONUS), s.mechanics);
    Matching.AnswersDistinct(mechanics, Matching.Query(None, 5, radius, Matching.MECHANIC_BONUS), s.anyMechanics);
    Matching.AnswersDistinct(garages, Matching.Query(wanted, 10, radius, Matching.GARAGE_BONUS), s.garages);
    Matching.AnswersDistinct(garages, Matching.Query(None, 5, radius, Matching.GARAGE_BONUS), s.anyGarages);
  }

  function Without(xs: seq<ProviderId>, seen: seq<ProviderId>): seq<ProviderId> {
    Filter(x => x !in seen, xs)
  }

  /** Matches first, then the nearest others. A job without a wanted expertise has no extras. */
  function FanOut(matched: seq<ProviderId>, nearest: seq<ProviderId>, filtered: bool): seq<ProviderId> {
    if filtered then matched + Without(nearest, matched) else matched
  }

  function Keys(j: JobId, kind: Kind, ids: seq<ProviderId>): (r: seq<OfferKey>)
    ensures |r| == |ids|
  {
    Map(id => OfferKey(j, Provider(kind, id)), ids)
  }

  predicate Serves(t: RequestType, kind: Kind) {
    t == Auto || (if kind == Mechanic then t == OnlyMechanic else t == OnlyGarage)
  }

  /** The keys of the given kind, if the customer asked for that kind. */
  function KeysFor(j: JobId, t: RequestType, kind: Kind, ids: seq<ProviderId>): seq<OfferKey> {
    if Serves(t, kind) then Keys(j, kind, ids) else []
  }

  /** Every offer row a dispatch of the job tries to insert. */
  function Targets(j: JobId, job: Job, s: Shortlist): seq<OfferKey> {
    var filtered := Matching.IssueTagToExpertise(job.issueTag).Some?;
    KeysFor(j, job.requestType, Mechanic, FanOut(s.mechanics, s.anyMechanics, filtered))
    + KeysFor(j, job.requestType, Garage, FanOut(s.garages, s.anyGarages, filtered))
  }

  /** The table after inserting pending rows for the keys that have none. */
  function WithRows(offers: map<OfferKey, Offer>, keys: seq<OfferKey>, expiresAt: Instant): map<OfferKey, Offer> {
    map k | k in offers.Keys + (set x | x in keys) :: if k in offers then offers[k] else Offer(Pending, expiresAt)
  }

  predicate Due(job: Job, now: Instant) {
    job.scheduledAt.None? || job.scheduledAt.value <= now
  }

  predicate Dispatchable(db: Db, j: JobId, now: Instant) {
    j in db.jobs && db.jobs[j].status == Searching && Due(db.jobs[j], now)
  }

  /** The dispatch at `now`, whose expiry is stamped `delay` later. */
  function Dispatched(db: Db, j: JobId, s: Shortlist, now: Instant, delay: nat): Db {
    if !Dispatchable(db, j, now) then db
    else db.(offers := WithRows(db.offers, Targets(j, db.jobs[j], s), now + delay + OFFER_TTL))
  }

  /** Why an accept or decline of the offer is turned down before the job is looked at. */
  function OwnPending(db: Db, p: Provider, k: OfferKey): Outcome {
    if k !in db.offers || k.provider != p then NotFound
    else if db.offers[k].status != Pending then Conflict
    else Ok
  }

  function CheckAccept(db: Db, p: Provider, k: OfferKey, now: Instant): Outcome {
    var own := OwnPending(db, p, k);
    if own != Ok then own
    else if db.offers[k].expiresAt < now then Gone
    else Ok
  }

  function AcceptWrite(p: Provider): Jobs.JobWrite {
    Jobs.JobWrite(Assigned, Some(p), None)
  }

  function AcceptStep(db: Db, p: Provider, k: OfferKey, now: Instant): (Db, Outcome) {
    var check := CheckAccept(db, p, k, now);
    if check != Ok then (db, check)
    else if k.job !in db.jobs || db.jobs[k.job].status != Searching then (db, Conflict)
    else
      (db.(offers := db.offers[k := db.offers[k].(status := Accepted)],
           jobs := db.jobs[k.job := Jobs.ApplyWrite(db.jobs[k.job], AcceptWrite(p))]), Ok)
  }

  function DeclineStep(db: Db, p: Provider, k: OfferKey): (Db, Outcome) {
    var check := OwnPending(db, p, k);
    if check != Ok then (db, check)
    else (db.(offers := db.offers[k := db.offers[k].(status := Declined)]), Ok)
  }

  // ---- The service methods -------------------------------------------------------------------

  lemma WithRowsSnoc(offers: map<OfferKey, Offer>, keys: seq<OfferKey>, k: OfferKey, e: Instant)
    ensures var before := WithRows(offers, keys, e);
            WithRows(offers, keys + [k], e) == if k in before then before else before[k := Offer(Pending, e)]
  {
  }

  lemma WithRowsTwice(offers: map<OfferKey, Offer>, a: seq<OfferKey>, b: seq<OfferKey>, e: Instant)
    ensures WithRows(WithRows(offers, a, e), b, e) == WithRows(offers, a + b, e)
    ensures WithRows(offers, [], e) == offers
  {
  }

  /** One round of inserts, each skipped when its key is taken. */
  method InsertOffers(db: Database, j: JobId, kind: Kind, ids: seq<ProviderId>, expiresAt: Instant)
    returns (created: nat)
    modifies db`offers
    ensures db.offers == WithRows(old(db.offers), Keys(j, kind, ids), expiresAt)
    ensures created == |db.offers| - |old(db.offers)|
  {
    created := 0;
    ghost var keys := Keys(j, kind, ids);
    WithRowsTwice(db.offers, [], [], expiresAt);
    for i := 0 to |ids|
      invariant db.offers == WithRows(old(db.offers), keys[..i], expiresAt)
      invariant created == |db.offers| - |old(db.offers)|
    {
      var k := OfferKey(j, Provider(kind, ids[i]));
      assert keys[..i + 1] == keys[..i] + [k];
      WithRowsSnoc(old(db.offers), keys[..i], k, expiresAt);
      if k !in db.offers {
        db.offers := db.offers[k := Offer(Pending, expiresAt)];
        created := created + 1;
      }
    }
    assert keys[..|ids|] == keys;
  }

  /** The insert rounds for the kinds the request serves. */
  method InsertForKinds(db: Database, j: JobId, t: RequestType, mechs: seq<ProviderId>, gars: seq<ProviderId>,
                        expiresAt: Instant)
    returns (total: nat)
    modifies db`offers
    ensures db.offers
            == WithRows(old(db.offers), KeysFor(j, t, Mechanic, mechs) + KeysFor(j, t, Garage, gars), expiresAt)
    ensures total == |db.offers| - |old(db.offers)|
  {
    ghost var toMechs, toGars := KeysFor(j, t, Mechanic, mechs), KeysFor(j, t, Garage, gars);
    WithRowsTwice(db.offers, toMechs, toGars, expiresAt);
    WithRowsTwice(WithRows(db.offers, toMechs, expiresAt), [], [], expiresAt);
    total := 0;
    if t in {OnlyMechanic, Auto} {
      var created := InsertOffers(db, j, Mechanic, mechs, expiresAt);
      total := total + created;
    }
    assert db.offers == WithRows(old(db.offers), toMechs, expiresAt);
    if t in {OnlyGarage, Auto} {
      var created := InsertOffers(db, j, Garage, gars, expiresAt);
      total := total + created;
    }
  }

  lemma TargetsAre(j: JobId, job: Job, s: Shortlist)
    ensures var filtered := Matching.IssueTagToExpertise(job.issueTag).Some?;
            Targets(j, job, s)
            == KeysFor(j, job.requestType, Mechanic, FanOut(s.mechanics, s.anyMechanics, filtered))
               + KeysFor(j, job.requestType, Garage, FanOut(s.garages, s.anyGarages, filtered))
  {
  }

  /** The fan-out and its inserts. */
  method InsertTargets(db: Database, j: JobId, job: Job, s: Shortlist, expiresAt: Instant) returns (total: nat)
    modifies db`offers
    ensures db.offers == WithRows(old(db.offers), Targets(j, job, s), expiresAt)
    ensures total == |db.offers| - |old(db.offers)|
  {
    TargetsAre(j, job, s);
    var filtered := Matching.IssueTagToExpertise(job.issueTag).Some?;
    var mechs := FanOut(s.mechanics, s.anyMechanics, filtered);
    var gars := FanOut(s.garages, s.anyGarages, filtered);
    total := InsertForKinds(db, j, job.requestType, mechs, gars, expiresAt);
  }

  method CreateProviderOffers(db: Database, j: JobId, s: Shortlist, now: Instant, delay: nat)
    returns (total: nat)
    modifies db
    ensures db.View() == Dispatched(old(db.View()), j, s, now, delay)
    ensures total == |db.offers| - |old(db.offers)|
  {
    if j !in db.jobs || db.jobs[j].status != Searching {
      return 0;
    }
    var job := db.jobs[j];
    if job.scheduledAt.Some? && job.scheduledAt.value > now {
      return 0;
    }
    var expiresAt := now + delay + OFFER_TTL;
    total := InsertTargets(db, j, job, s, expiresAt);
  }

  method AcceptOffer(db: Database, p: Provider, k: OfferKey, now: Instant) returns (outcome: Outcome)
    modifies db
    ensures (db.View(), outcome) == AcceptStep(old(db.View()), p, k, now)
  {
    if k !in db.offers || k.provider != p {
      return NotFound;
    }
    var offer := db.offers[k];
    if offer.status != Pending {
      return Conflict;
    }
    if offer.expiresAt < now {
      return Gone;
    }
    if k.job !in db.jobs || db.jobs[k.job].status != Searching {
      return Conflict;
    }
    var lockedJob := db.jobs[k.job];
    db.offers := db.offers[k := offer.(status := Accepted)];
    lockedJob := lockedJob.(status := Assigned);
    lockedJob := lockedJob.(assignedType := Some(p.kind));
    if p.kind == Mechanic {
      lockedJob := lockedJob.(mechanicId := Some(p.id));
    } else {
      lockedJob := lockedJob.(garageId := Some(p.id));
    }
    db.jobs := db.jobs[k.job := lockedJob];
    return Ok;
  }

  method DeclineOffer(db: Database, p: Provider, k: OfferKey) returns (outcome: Outcome)
    modifies db
    ensures (db.View(), outcome) == DeclineStep(old(db.View()), p, k)
  {
    if k !in db.offers || k.provider != p {
      return NotFound;
    }
    if db.offers[k].status != Pending {
      return Conflict;
    }
    db.offers := db.offers[k := db.offers[k].(status := Declined)];
    return Ok;
  }

  // ---- What dispatch promises ----------------------------------------------------------------

  /** The fan-out repeats nobody, starts with all the matches in their order, reaches everybody
      found, and holds at most 15. */
  lemma FanOutLaws(matched: seq<ProviderId>, nearest: seq<ProviderId>, filtered: bool)
    requires Distinct(matched) && Distinct(nearest) && |matched| <= 10 && |nearest| <= 5
    ensures var out := FanOut(matched, nearest, filtered);
            && Distinct(out)
            && matched <= out
            && |out| <= 15
            && (filtered ==> forall x :: x in out <==> x in matched || x in nearest)
            && (!filtered ==> out == matched)
  {
    FilterDistinct(x => x !in matched, nearest);
    var extra := Without(nearest, matched);
    forall i | 0 <= i < |extra|
      ensures extra[i] !in matched
    {
      assert extra[i] in extra;
    }
  }

  lemma KeysDistinct(j: JobId, kind: Kind, ids: seq<ProviderId>)
    requires Distinct(ids)
    ensures Distinct(Keys(j, kind, ids))
    ensures forall k :: k in Keys(j, kind, ids) ==> k.job == j && k.provider.kind == kind
  {
  }

  /** A dispatch tries no provider twice, and only kinds the customer asked for. */
  lemma TargetsLaws(j: JobId, job: Job, s: Shortlist)
    requires ValidShortlist(s)
    ensures Distinct(Targets(j, job, s)) && |Targets(j, job, s)| <= 30
  {
    var filtered := Matching.IssueTagToExpertise(job.issueTag).Some?;
    var mechs, gars := FanOut(s.mechanics, s.anyMechanics, filtered), FanOut(s.garages, s.anyGarages, filtered);
    FanOutLaws(s.mechanics, s.anyMechanics, filtered);
    FanOutLaws(s.garages, s.anyGarages, filtered);
    KeysDistinct(j, Mechanic, mechs);
    KeysDistinct(j, Garage, gars);
    var a, b := KeysFor(j, job.requestType, Mechanic, mechs), KeysFor(j, job.requestType, Garage, gars);
    forall i, k | 0 <= i < |a| && 0 <= k < |b|
      ensures a[i] != b[k]
    {
      assert a[i] in a && b[k] in b;
    }
    assert Targets(j, job, s) == a + b;
  }

  /** One dispatch creates rows for this job only, for providers of the kind
      the customer asked for, pending, expiring 15 minutes on; leaves every existing row as it was;
      and creates none for a job that is not searching or not yet due. */
  lemma DispatchLaws(db: Db, j: JobId, s: Shortlist, now: Instant, delay: nat)
    ensures var after := Dispatched(db, j, s, now, delay);
            && after == db.(offers := after.offers)
            && (forall k | k in db.offers :: k in after.offers && after.offers[k] == db.offers[k])
            && (forall k | k in after.offers && k !in db.offers ::
                  && k.job == j && Dispatchable(db, j, now) && Serves(db.jobs[j].requestType, k.provider.kind)
                  && after.offers[k] == Offer(Pending, now + delay + OFFER_TTL))
  {
  }

  // ---- What each operation answers and writes ------------------------------------------------

  /** An accept succeeds exactly for the provider's own pending offer that has not expired, of a job
      that is searching; then offer and job are written together. Otherwise nothing is. */
  lemma AcceptLaw(db: Db, p: Provider, k: OfferKey, now: Instant)
    ensures var (after, outcome) := AcceptStep(db, p, k, now);
            && (outcome == Ok <==>
                  && k in db.offers && k.provider == p && db.offers[k].status == Pending
                  && now <= db.offers[k].expiresAt && k.job in db.jobs && db.jobs[k.job].status == Searching)
            && (outcome != Ok ==> after == db)
            && (outcome == Ok ==>
                  && after == db.(
                       offers := db.offers[k := db.offers[k].(status := Accepted)],
                       jobs := db.jobs[k.job := db.jobs[k.job].(
                         status := Assigned,
                         assignedType := Some(p.kind),
                         mechanicId := if p.kind == Mechanic then Some(p.id) else db.jobs[k.job].mechanicId,
                         garageId := if p.kind == Garage then Some(p.id) else db.jobs[k.job].garageId)]))
            && (outcome == NotFound <==> k !in db.offers || k.provider != p)
            && (outcome == Gone <==>
                  k in db.offers && k.provider == p && db.offers[k].status == Pending && db.offers[k].expiresAt < now)
  {
  }

  /** A decline succeeds exactly for the provider's own pending offer, expired or not, whatever the
      job; only that offer is written. */
  lemma DeclineLaw(db: Db, p: Provider, k: OfferKey)
    ensures var (after, outcome) := DeclineStep(db, p, k);
            && (outcome == Ok <==> k in db.offers && k.provider == p && db.offers[k].status == Pending)
            && (outcome != Ok ==> after == db)
            && (outcome == Ok ==> after == db.(offers := db.offers[k := Offer(Declined, db.offers[k].expiresAt)]))
            && (outcome == NotFound <==> k !in db.offers || k.provider != p)
  {
  }

  lemma KeysOf(j: JobId, kind: Kind, ids: seq<ProviderId>, k: OfferKey)
    ensures k in Keys(j, kind, ids) <==> k.job == j && k.provider.kind == kind && k.provider.id in ids
  {
    if k in Keys(j, kind, ids) {
      var i :| 0 <= i < |ids| && Keys(j, kind, ids)[i] == k;
      assert ids[i] == k.provider.id;
    }
    if k.job == j && k.provider.kind == kind && k.provider.id in ids {
      var i :| 0 <= i < |ids| && ids[i] == k.provider.id;
      assert Keys(j, kind, ids)[i] == k;
    }
  }

  lemma TargetsIff(j: JobId, job: Job, s: Shortlist, k: OfferKey)
    ensures k in Targets(j, job, s) <==>
            && k.job == j
            && var anyone := Matching.IssueTagToExpertise(job.issueTag).Some?;
            match k.provider.kind
            case Mechanic =>
              job.requestType != OnlyGarage
              && (k.provider.id in s.mechanics || (anyone && k.provider.id in s.anyMechanics))
            case Garage =>
              job.requestType != OnlyMechanic
              && (k.provider.id in s.garages || (anyone && k.provider.id in s.anyGarages))
  {
    var filtered := Matching.IssueTagToExpertise(job.issueTag).Some?;
    var mechs, gars := FanOut(s.mechanics, s.anyMechanics, filtered), FanOut(s.garages, s.anyGarages, filtered);
    var toMechs, toGars := KeysFor(j, job.requestType, Mechanic, mechs), KeysFor(j, job.requestType, Garage, gars);
    KeysOf(j, Mechanic, mechs, k);
    KeysOf(j, Garage, gars, k);
    assert Targets(j, job, s) == toMechs + toGars;
    assert k in Targets(j, job, s) <==> k in toMechs || k in toGars;
  }

  /** Who gets an offer: for a job that is searching and due, the mechanics found if it asks for a
      mechanic or either, the garages likewise; those found without the wanted expertise only if the
      tag asks for one. The offer is pending for fifteen minutes. */
  lemma DispatchIff(db: Db, j: JobId, s: Shortlist, now: Instant, delay: nat, k: OfferKey)
    requires k !in db.offers
    ensures var after := Dispatched(db, j, s, now, delay);
            && (k in after.offers <==>
                  && k.job == j && j in db.jobs && db.jobs[j].status == Searching
                  && (forall at :: db.jobs[j].scheduledAt == Some(at) ==> at <= now)
                  && var anyone := Matching.IssueTagToExpertise(db.jobs[j].issueTag).Some?;
                  match k.provider.kind
                  case Mechanic =>
                    db.jobs[j].requestType != OnlyGarage
                    && (k.provider.id in s.mechanics || (anyone && k.provider.id in s.anyMechanics))
                  case Garage =>
                    db.jobs[j].requestType != OnlyMechanic
                    && (k.provider.id in s.garages || (anyone && k.provider.id in s.anyGarages)))
            && (k in after.offers ==> after.offers[k] == Offer(Pending, now + delay + 900_000_000))
  {
    if j in db.jobs {
      TargetsIff(j, db.jobs[j], s, k);
    }
  }
}
