/** Dispatch and accept under concurrency.

    Requests run as transactions that interleave at their reads, locks and commits. An accept reads
    and validates its offer, then locks the job row (and sees it searching, or gives up), then
    commits. A dispatch works under the job lock from start to end. A decline reads its offer and
    writes it later without any lock. Every other writer of a job decides from a row it read
    earlier, and later writes those columns as soon as nobody holds the job lock. Captures, cash and
    releases among them also read payment rows; those are not part of the state here: each such
    request may see any. Any transaction can also be rolled back. */
module Interleaving {
  import opened Records
  import opened Jobs
  import opened Offers
  import opened LifeCycle
  import Seqs

  type TxnId = nat

  datatype Txn =
    | AcceptRead(provider: Provider, key: OfferKey)
    | AcceptLocked(provider: Provider, key: OfferKey)
    | DispatchLocked(job: JobId, targets: seq<OfferKey>, expiresAt: Instant)
    | DeclineRead(key: OfferKey)
    | WriteRead(job: JobId, write: JobWrite, seen: Status)

  /** A committed accept, with the job status it overwrote. */
  datatype Win = Win(key: OfferKey, over: Status)

  datatype Sys = Sys(db: Db, txns: map<TxnId, Txn>, locks: map<JobId, TxnId>, wins: seq<Win>)

  datatype Action =
    | Create(job: JobId, owner: UserId, issueTag: string, requestType: RequestType, scheduledAt: Option<Instant>)
    | BeginAccept(txn: TxnId, provider: Provider, key: OfferKey, now: Instant)
    | LockAccept(txn: TxnId)
    | CommitAccept(txn: TxnId)
    | BeginDispatch(txn: TxnId, job: JobId, shortlist: Shortlist, now: Instant, delay: nat)
    | CommitDispatch(txn: TxnId)
    | BeginDecline(txn: TxnId, provider: Provider, key: OfferKey)
    | CommitDecline(txn: TxnId)
    | BeginWrite(txn: TxnId, job: JobId, step: Step, payments: seq<Payment>)
    | CommitWrite(txn: TxnId)
    | Rollback(txn: TxnId)

  const START := Sys(EMPTY, map[], map[], [])

  function Begin(s: Sys, id: TxnId, t: Txn): Sys {
    s.(txns := s.txns[id := t])
  }

  /** The transaction is over and its locks are free. */
  function End(s: Sys, id: TxnId): Sys {
    s.(txns := s.txns - {id}, locks := map j | j in s.locks && s.locks[j] != id :: s.locks[j])
  }

  function SetOffer(db: Db, k: OfferKey, status: OfferStatus): Db
    requires k in db.offers
  {
    db.(offers := db.offers[k := db.offers[k].(status := status)])
  }

  function WriteJob(db: Db, j: JobId, w: JobWrite): Db
    requires j in db.jobs
  {
    db.(jobs := db.jobs[j := ApplyWrite(db.jobs[j], w)])
  }

  predicate IsSearching(db: Db, j: JobId) {
    j in db.jobs && db.jobs[j].status == Searching
  }

  /** One action. An action that is not enabled (a transaction id in use, a lock taken, a phase
      not reached) leaves the system as it is. */
  function Act(s: Sys, a: Action): Sys {
    match a
    case Create(j, owner, tag, t, at) => s.(db := NewJobStep(s.db, j, FreshJob(owner, tag, t, at)))
    case BeginAccept(id, p, k, now) =>
      if id !in s.txns && CheckAccept(s.db, p, k, now) == Ok then Begin(s, id, AcceptRead(p, k)) else s
    case LockAccept(id) =>
      if id !in s.txns || !s.txns[id].AcceptRead? || s.txns[id].key.job in s.locks then s
      else
        var t := s.txns[id];
        if IsSearching(s.db, t.key.job)
        then Begin(s, id, AcceptLocked(t.provider, t.key)).(locks := s.locks[t.key.job := id])
        else End(s, id)
    case CommitAccept(id) =>
      if id in s.txns && s.txns[id].AcceptLocked? && s.txns[id].key in s.db.offers && s.txns[id].key.job in s.db.jobs then
        var t := s.txns[id];
        var db := WriteJob(SetOffer(s.db, t.key, Accepted), t.key.job, AcceptWrite(t.provider));
        End(s, id).(db := db, wins := s.wins + [Win(t.key, s.db.jobs[t.key.job].status)])
      else s
    case BeginDispatch(id, j, list, now, delay) =>
      if id !in s.txns && j !in s.locks && Dispatchable(s.db, j, now)
      then Begin(s, id, DispatchLocked(j, Targets(j, s.db.jobs[j], list), now + delay + OFFER_TTL)).(locks := s.locks[j := id])
      else s
    case CommitDispatch(id) =>
      if id in s.txns && s.txns[id].DispatchLocked?
      then End(s, id).(db := s.db.(offers := WithRows(s.db.offers, s.txns[id].targets, s.txns[id].expiresAt)))
      else s
    case BeginDecline(id, p, k) =>
      if id !in s.txns && OwnPending(s.db, p, k) == Ok then Begin(s, id, DeclineRead(k)) else s
    case CommitDecline(id) =>
      if id in s.txns && s.txns[id].DeclineRead? && s.txns[id].key in s.db.offers
      then End(s, id).(db := SetOffer(s.db, s.txns[id].key, Declined))
      else s
    case BeginWrite(id, j, step, payments) =>
      var seen := s.db.(payments := payments);
      if id !in s.txns && j in s.db.jobs && !step.Accept? && PlanFor(seen, step, j).Write?
      then Begin(s, id, WriteRead(j, PlanFor(seen, step, j).write, s.db.jobs[j].status))
      else s
    case CommitWrite(id) =>
      if id in s.txns && s.txns[id].WriteRead? && s.txns[id].job in s.db.jobs && s.txns[id].job !in s.locks
      then End(s, id).(db := WriteJob(s.db, s.txns[id].job, s.txns[id].write))
      else s
    case Rollback(id) => End(s, id)
  }

  function Steps(s: Sys, actions: seq<Action>): Sys {
    if actions == [] then s else Act(Steps(s, actions[..|actions| - 1]), actions[|actions| - 1])
  }

  // ---- Alone, a transaction is its request ---------------------------------------------------

  /** An accept with nothing in between answers and writes as the request does. */
  lemma AcceptAlone(s: Sys, id: TxnId, k: OfferKey, p: Provider, now: Instant)
    requires id !in s.txns && k.job !in s.locks
    ensures Act(Act(Act(s, BeginAccept(id, p, k, now)), LockAccept(id)), CommitAccept(id)).db
            == AcceptStep(s.db, p, k, now).0
  {
  }

  lemma DispatchAlone(s: Sys, id: TxnId, j: JobId, list: Shortlist, now: Instant, delay: nat)
    requires id !in s.txns && j !in s.locks
    ensures Act(Act(s, BeginDispatch(id, j, list, now, delay)), CommitDispatch(id)).db
            == Dispatched(s.db, j, list, now, delay)
  {
    BeginsDispatch(s, id, j, list, now, delay);
    if Dispatchable(s.db, j, now) {
      CommitsDispatch(Act(s, BeginDispatch(id, j, list, now, delay)), id);
    } else {
      NothingToCommit(s, id);
    }
  }

  lemma BeginsDispatch(s: Sys, id: TxnId, j: JobId, list: Shortlist, now: Instant, delay: nat)
    requires id !in s.txns && j !in s.locks
    ensures var begun := Act(s, BeginDispatch(id, j, list, now, delay));
            if Dispatchable(s.db, j, now)
            then
              && begun.db == s.db && id in begun.txns
              && begun.txns[id] == DispatchLocked(j, Targets(j, s.db.jobs[j], list), now + delay + OFFER_TTL)
            else begun == s
  {
  }

  lemma NothingToCommit(s: Sys, id: TxnId)
    requires id !in s.txns
    ensures Act(s, CommitDispatch(id)) == s
  {
  }

  lemma CommitsDispatch(s: Sys, id: TxnId)
    requires id in s.txns && s.txns[id].DispatchLocked?
    ensures Act(s, CommitDispatch(id)).db
            == s.db.(offers := WithRows(s.db.offers, s.txns[id].targets, s.txns[id].expiresAt))
  {
  }

  lemma DeclineAlone(s: Sys, id: TxnId, k: OfferKey, p: Provider)
    requires id !in s.txns
    ensures Act(Act(s, BeginDecline(id, p, k)), CommitDecline(id)).db == DeclineStep(s.db, p, k).0
  {
  }

  /** Any other writer writes the job row as its request does. */
  lemma WriteAlone(s: Sys, id: TxnId, j: JobId, step: Step)
    requires id !in s.txns && j !in s.locks && j in s.db.jobs && !step.Accept?
    ensures var after := Act(Act(s, BeginWrite(id, j, step, s.db.payments)), CommitWrite(id)).db;
            j in after.jobs && j in Apply(s.db, step).jobs && after.jobs[j] == Apply(s.db, step).jobs[j]
  {
    StepIsPlan(s.db, step, j);
    assert s.db.(payments := s.db.payments) == s.db;
    var begun := Act(s, BeginWrite(id, j, step, s.db.payments));
    if PlanFor(s.db, step, j).Write? {
      assert begun.txns[id] == WriteRead(j, PlanFor(s.db, step, j).write, s.db.jobs[j].status);
      CommitsWrite(begun, id);
    }
  }

  /** A job is created as its request creates it. */
  lemma CreateAlone(s: Sys, j: JobId, owner: UserId, tag: string, t: RequestType, at: Option<Instant>)
    ensures Act(s, Create(j, owner, tag, t, at)).db == Apply(s.db, NewJob(j, owner, tag, t, at))
  {
  }

  /** A rollback writes nothing, and frees what the transaction held. */
  lemma RollbackFrees(s: Sys, id: TxnId)
    ensures var s' := Act(s, Rollback(id));
            && s'.db == s.db && s'.wins == s.wins && id !in s'.txns
            && (forall other | other != id :: other in s.txns ==> other in s'.txns && s'.txns[other] == s.txns[other])
            && (forall j :: j in s'.locks <==> j in s.locks && s.locks[j] != id)
            && (forall j | j in s'.locks :: s'.locks[j] == s.locks[j])
  {
  }

  // ---- The invariant -------------------------------------------------------------------------

  /** What a transaction in flight can rely on. */
  predicate TxnSound(s: Sys, id: TxnId)
    requires id in s.txns
  {
    match s.txns[id]
    case AcceptRead(p, k) => k in s.db.offers
    case AcceptLocked(p, k) =>
      k in s.db.offers && k.job in s.locks && s.locks[k.job] == id && IsSearching(s.db, k.job)
    case DispatchLocked(j, targets, expiresAt) =>
      && j in s.locks && s.locks[j] == id && IsSearching(s.db, j)
      && forall k | k in targets :: k.job == j
    case DeclineRead(k) => k in s.db.offers
    case WriteRead(j, w, seen) => j in s.db.jobs && Rank(seen) < Rank(w.status)
  }

  predicate WinSound(s: Sys, i: nat)
    requires i < |s.wins|
  {
    var w := s.wins[i];
    && w.over == Searching
    && w.key in s.db.offers && s.db.offers[w.key].status != Pending
    && w.key.job in s.db.jobs && s.db.jobs[w.key.job].status != Searching
  }

  ghost predicate Won(s: Sys, k: OfferKey) {
    exists i :: 0 <= i < |s.wins| && s.wins[i].key == k
  }

  ghost predicate TxnsSound(s: Sys) {
    forall id | id in s.txns :: TxnSound(s, id)
  }

  ghost predicate WinsSound(s: Sys) {
    && (forall i :: 0 <= i < |s.wins| ==> WinSound(s, i))
    && (forall a, b :: 0 <= a < b < |s.wins| ==> s.wins[a].key.job != s.wins[b].key.job)
    && (forall k | k in s.db.offers && s.db.offers[k].status == Accepted :: Won(s, k))
  }

  ghost predicate Inv(s: Sys) {
    TxnsSound(s) && WinsSound(s)
  }

  /** A transaction that stays in flight stays sound when no row is lost, its locks are still its
      own, and the jobs under them are still searching. */
  lemma TxnKept(s: Sys, s': Sys, id: TxnId)
    requires id in s.txns && id in s'.txns && s'.txns[id] == s.txns[id] && TxnSound(s, id)
    requires s.db.offers.Keys <= s'.db.offers.Keys && s.db.jobs.Keys <= s'.db.jobs.Keys
    requires forall j | j in s.locks && s.locks[j] == id ::
               j in s'.locks && s'.locks[j] == id && (IsSearching(s.db, j) ==> IsSearching(s'.db, j))
    ensures TxnSound(s', id)
  {
  }

  /** The wins stay sound when no row is lost, no job returns to searching, no answered offer goes
      back to pending, and no offer becomes accepted. */
  lemma WinsKept(s: Sys, s': Sys)
    requires Inv(s) && s'.wins == s.wins
    requires forall k | k in s.db.offers ::
               k in s'.db.offers && (s.db.offers[k].status != Pending ==> s'.db.offers[k].status != Pending)
    requires forall k | k in s'.db.offers && s'.db.offers[k].status == Accepted ::
               k in s.db.offers && s.db.offers[k].status == Accepted
    requires forall j | j in s.db.jobs ::
               j in s'.db.jobs && (s.db.jobs[j].status != Searching ==> s'.db.jobs[j].status != Searching)
    ensures WinsSound(s')
  {
    forall i | 0 <= i < |s'.wins|
      ensures WinSound(s', i)
    {
      assert WinSound(s, i);
    }
    forall k | k in s'.db.offers && s'.db.offers[k].status == Accepted
      ensures Won(s', k)
    {
      assert Won(s, k);
      var i :| 0 <= i < |s.wins| && s.wins[i].key == k;
      assert s'.wins[i].key == k;
    }
  }

  lemma ActKeepsTxns(s: Sys, a: Action)
    requires Inv(s)
    ensures TxnsSound(Act(s, a))
  {
    var s' := Act(s, a);
    if a.BeginWrite? && a.job in s.db.jobs {
      PlanLegal(s.db.(payments := a.payments), a.step, a.job);
    }
    forall id | id in s'.txns
      ensures TxnSound(s', id)
    {
      if id in s.txns && s'.txns[id] == s.txns[id] {
        ActRespects(s, a, id);
        TxnKept(s, s', id);
      } else if a.BeginDispatch? {
        TargetsOfJob(a.job, s.db.jobs[a.job], a.shortlist);
      }
    }
  }

  lemma TargetsOfJob(j: JobId, job: Job, list: Shortlist)
    ensures forall k | k in Targets(j, job, list) :: k.job == j
  {
  }

  lemma RowsRemain(s: Sys, a: Action)
    ensures s.db.offers.Keys <= Act(s, a).db.offers.Keys && s.db.jobs.Keys <= Act(s, a).db.jobs.Keys
  {
  }

  /** Only a commit of an accept or of a write touches an existing job, and only one that nobody
      else has locked. */
  lemma WritesWhatIsFree(s: Sys, a: Action, j: JobId)
    requires Inv(s) && j in s.db.jobs
    ensures j in Act(s, a).db.jobs
    ensures Act(s, a).db.jobs[j] != s.db.jobs[j]
            ==> (a.CommitAccept? || a.CommitWrite?) && (j in s.locks ==> s.locks[j] == a.txn)
  {
  }

  /** No action takes a lock from a transaction that goes on, or writes a job it has locked. */
  lemma ActRespects(s: Sys, a: Action, id: TxnId)
    requires Inv(s) && id in s.txns && id in Act(s, a).txns && Act(s, a).txns[id] == s.txns[id]
    ensures var s' := Act(s, a);
            && s.db.offers.Keys <= s'.db.offers.Keys && s.db.jobs.Keys <= s'.db.jobs.Keys
            && forall j | j in s.locks && s.locks[j] == id ::
                 j in s'.locks && s'.locks[j] == id && (IsSearching(s.db, j) ==> IsSearching(s'.db, j))
  {
    RowsRemain(s, a);
    forall j | j in s.locks && s.locks[j] == id
      ensures j in Act(s, a).locks && Act(s, a).locks[j] == id
      ensures IsSearching(s.db, j) ==> IsSearching(Act(s, a).db, j)
    {
      LocksRemain(s, a, id, j);
      if j in s.db.jobs {
        WritesWhatIsFree(s, a, j);
        if (a.CommitAccept? || a.CommitWrite?) && a.txn == id {
          CommitEnds(s, a);
        }
      }
    }
  }

  lemma LocksRemain(s: Sys, a: Action, id: TxnId, j: JobId)
    requires id in s.txns && id in Act(s, a).txns && j in s.locks && s.locks[j] == id
    ensures j in Act(s, a).locks && Act(s, a).locks[j] == id
  {
  }

  lemma CommitEnds(s: Sys, a: Action)
    requires a.CommitAccept? || a.CommitWrite?
    ensures Act(s, a) == s || a.txn !in Act(s, a).txns
  {
  }

  /** Whatever is not the commit of an accept adds no acceptance and un-answers nothing. */
  lemma OthersAcceptNothing(s: Sys, a: Action)
    requires !a.CommitAccept?
    ensures Act(s, a).wins == s.wins
    ensures forall k | k in s.db.offers ::
              k in Act(s, a).db.offers
              && (s.db.offers[k].status != Pending ==> Act(s, a).db.offers[k].status != Pending)
    ensures forall k | k in Act(s, a).db.offers && Act(s, a).db.offers[k].status == Accepted ::
              k in s.db.offers && s.db.offers[k].status == Accepted
  {
  }

  /** No job ever returns to searching. */
  lemma NeverSearchingAgain(s: Sys, a: Action)
    requires Inv(s)
    ensures forall j | j in s.db.jobs ::
              j in Act(s, a).db.jobs && (s.db.jobs[j].status != Searching ==> Act(s, a).db.jobs[j].status != Searching)
  {
  }

  lemma ActKeepsWins(s: Sys, a: Action)
    requires Inv(s)
    ensures WinsSound(Act(s, a))
  {
    if a.CommitAccept? {
      if a.txn in s.txns && s.txns[a.txn].AcceptLocked? {
        AcceptKeepsWins(s, a.txn);
      }
    } else {
      OthersAcceptNothing(s, a);
      NeverSearchingAgain(s, a);
      WinsKept(s, Act(s, a));
    }
  }

  lemma AcceptKeepsWins(s: Sys, id: TxnId)
    requires Inv(s) && id in s.txns && s.txns[id].AcceptLocked?
    ensures WinsSound(Act(s, CommitAccept(id)))
  {
    assert TxnSound(s, id);
    var s', k := Act(s, CommitAccept(id)), s.txns[id].key;
    assert s'.wins == s.wins + [Win(k, Searching)];
    forall i | 0 <= i < |s'.wins|
      ensures WinSound(s', i)
      ensures i < |s.wins| ==> s'.wins[i].key.job != k.job
    {
      if i < |s.wins| { assert WinSound(s, i); }
    }
    forall x | x in s'.db.offers && s'.db.offers[x].status == Accepted
      ensures Won(s', x)
    {
      if x == k {
        assert s'.wins[|s.wins|].key == k;
      } else {
        assert Won(s, x);
        var i :| 0 <= i < |s.wins| && s.wins[i].key == x;
        assert s'.wins[i].key == x;
      }
    }
  }

  lemma {:induction false} InvKept(s: Sys, actions: seq<Action>)
    requires Inv(s)
    ensures Inv(Steps(s, actions))
  {
    if actions != [] {
      var init, last := actions[..|actions| - 1], actions[|actions| - 1];
      InvKept(s, init);
      ActKeepsTxns(Steps(s, init), last);
      ActKeepsWins(Steps(s, init), last);
    }
  }

  lemma InvOverRuns(actions: seq<Action>)
    ensures Inv(Steps(START, actions))
  {
    InvKept(START, actions);
  }

  // ---- Safety --------------------------------------------------------------------------------

  /** In every interleaving, at most one accept ever commits for a job, and it commits over a
      searching job; the job is never searching afterwards, so the row says who was first. */
  lemma AtMostOneAccept(actions: seq<Action>)
    ensures var s := Steps(START, actions);
            && (forall a, b :: 0 <= a < b < |s.wins| ==> s.wins[a].key.job != s.wins[b].key.job)
            && (forall i :: 0 <= i < |s.wins| ==>
                  && s.wins[i].over == Searching
                  && s.wins[i].key.job in s.db.jobs && s.db.jobs[s.wins[i].key.job].status != Searching)
  {
    InvOverRuns(actions);
    var s := Steps(START, actions);
    forall i | 0 <= i < |s.wins|
      ensures s.wins[i].over == Searching
      ensures s.wins[i].key.job in s.db.jobs && s.db.jobs[s.wins[i].key.job].status != Searching
    {
      assert WinSound(s, i);
    }
  }

  /** So no two offers of one job are ever accepted at once. */
  lemma AtMostOneAcceptedOffer(actions: seq<Action>, k: OfferKey, k': OfferKey)
    requires var offers := Steps(START, actions).db.offers;
             k in offers && offers[k].status == Accepted && k' in offers && offers[k'].status == Accepted
    requires k.job == k'.job
    ensures k == k'
  {
    InvOverRuns(actions);
    var s := Steps(START, actions);
    assert Won(s, k) && Won(s, k');
    var a :| 0 <= a < |s.wins| && s.wins[a].key == k;
    var b :| 0 <= b < |s.wins| && s.wins[b].key == k';
    assert a == b;
  }

  /** Offers are only created while their job is searching: the dispatch lock keeps it so. */
  lemma OffersWhileSearching(actions: seq<Action>, a: Action, k: OfferKey)
    requires k !in Steps(START, actions).db.offers && k in Act(Steps(START, actions), a).db.offers
    ensures IsSearching(Steps(START, actions).db, k.job)
  {
    InvOverRuns(actions);
    NewOfferIsDispatched(Steps(START, actions), a, k);
    assert TxnSound(Steps(START, actions), a.txn);
  }

  lemma NewOfferIsDispatched(s: Sys, a: Action, k: OfferKey)
    requires k !in s.db.offers && k in Act(s, a).db.offers
    ensures a.CommitDispatch? && a.txn in s.txns && s.txns[a.txn].DispatchLocked? && k in s.txns[a.txn].targets
  {
  }

  // ---- What a racing decline can undo --------------------------------------------------------

  /** A decline that has read the offer, and not written it yet, is in flight. */
  ghost predicate DeclineInFlight(s: Sys, k: OfferKey) {
    exists id :: id in s.txns && s.txns[id] == DeclineRead(k)
  }

  lemma AcceptedStep(s: Sys, a: Action, k: OfferKey)
    requires k in s.db.offers && s.db.offers[k].status == Accepted && !DeclineInFlight(s, k)
    ensures var s' := Act(s, a);
            k in s'.db.offers && s'.db.offers[k].status == Accepted && !DeclineInFlight(s', k)
  {
  }

  lemma {:induction false} AcceptedForever(s: Sys, actions: seq<Action>, k: OfferKey)
    requires k in s.db.offers && s.db.offers[k].status == Accepted && !DeclineInFlight(s, k)
    ensures var s' := Steps(s, actions);
            k in s'.db.offers && s'.db.offers[k].status == Accepted && !DeclineInFlight(s', k)
  {
    if actions != [] {
      AcceptedForever(s, actions[..|actions| - 1], k);
      AcceptedStep(Steps(s, actions[..|actions| - 1]), actions[|actions| - 1], k);
    }
  }

  predicate IsAccepted(s: Sys, k: OfferKey) {
    k in s.db.offers && s.db.offers[k].status == Accepted
  }

  /** An accepted offer stays accepted whatever follows exactly when no decline of it, read while
      it was still pending, is in flight: such a decline overwrites the acceptance. */
  lemma AcceptedForeverIff(s: Sys, k: OfferKey)
    requires IsAccepted(s, k)
    ensures !DeclineInFlight(s, k) <==> forall actions: seq<Action> :: IsAccepted(Steps(s, actions), k)
  {
    if DeclineInFlight(s, k) {
      var id :| id in s.txns && s.txns[id] == DeclineRead(k);
      var actions := [CommitDecline(id)];
      assert actions[..0] == [];
      assert Steps(s, actions) == Act(Steps(s, []), CommitDecline(id));
      assert !IsAccepted(Steps(s, actions), k);
    } else {
      forall actions: seq<Action>
        ensures IsAccepted(Steps(s, actions), k)
      {
        AcceptedForever(s, actions, k);
      }
    }
  }

  /** And that race can be run from any pending offer of a searching job: the provider's decline
      reads it, their accept runs through, and the decline is still to come. */
  lemma DeclineCanRace(s: Sys, k: OfferKey, now: Instant)
    requires CheckAccept(s.db, k.provider, k, now) == Ok && IsSearching(s.db, k.job) && k.job !in s.locks
    requires 0 !in s.txns && 1 !in s.txns
    ensures var s1 := Act(Act(s, BeginDecline(0, k.provider, k)), BeginAccept(1, k.provider, k, now));
            var s2 := Act(Act(s1, LockAccept(1)), CommitAccept(1));
            IsAccepted(s2, k) && DeclineInFlight(s2, k)
  {
    var s0 := Act(s, BeginDecline(0, k.provider, k));
    var s1 := Act(s0, BeginAccept(1, k.provider, k, now));
    assert s1 == s.(txns := s.txns[0 := DeclineRead(k)][1 := AcceptRead(k.provider, k)]);
    LockThenCommit(s1, 1);
    var s2 := Act(Act(s1, LockAccept(1)), CommitAccept(1));
    assert 0 in s2.txns && s2.txns[0] == DeclineRead(k);
  }

  lemma LockThenCommit(s: Sys, id: TxnId)
    requires id in s.txns && s.txns[id].AcceptRead? && s.txns[id].key in s.db.offers
    requires IsSearching(s.db, s.txns[id].key.job) && s.txns[id].key.job !in s.locks
    ensures var s' := Act(Act(s, LockAccept(id)), CommitAccept(id));
            IsAccepted(s', s.txns[id].key) && s'.txns == s.txns - {id}
  {
  }

  // ---- What a stale write can undo -----------------------------------------------------------

  /** A write moves the job up the order when the job still has the status it was decided on; in
      every interleaving, only a write whose read has gone stale can move a job down. */
  lemma OnlyStaleWritesLower(actions: seq<Action>, a: Action, j: JobId)
    requires var s := Steps(START, actions); j in s.db.jobs
    ensures var s, s' := Steps(START, actions), Act(Steps(START, actions), a);
            && j in s'.db.jobs
            && (Rank(s'.db.jobs[j].status) < Rank(s.db.jobs[j].status) ==>
                  && a.CommitWrite? && a.txn in s.txns && s.txns[a.txn].WriteRead? && s.txns[a.txn].job == j
                  && s.txns[a.txn].seen != s.db.jobs[j].status)
  {
    InvOverRuns(actions);
    WriteLowersIfStale(Steps(START, actions), a, j);
  }

  lemma WriteLowersIfStale(s: Sys, a: Action, j: JobId)
    requires Inv(s) && j in s.db.jobs
    ensures j in Act(s, a).db.jobs
    ensures Rank(Act(s, a).db.jobs[j].status) < Rank(s.db.jobs[j].status) ==>
              && a.CommitWrite? && a.txn in s.txns && s.txns[a.txn].WriteRead? && s.txns[a.txn].job == j
              && s.txns[a.txn].seen != s.db.jobs[j].status
  {
    WritesWhatIsFree(s, a, j);
    if (a.CommitWrite? || a.CommitAccept?) && a.txn in s.txns {
      assert TxnSound(s, a.txn);
    }
  }

  /** Which can happen from any assigned job: a patch reads it, a cancellation runs through, and the
      patch puts the cancelled job back on the road. */
  lemma StaleWriteCanReopen(s: Sys, j: JobId)
    requires j in s.db.jobs && s.db.jobs[j].status == Assigned && j !in s.locks
    requires 0 !in s.txns && 1 !in s.txns
    ensures var s1 := Act(Act(s, BeginWrite(0, j, Patch(j, EnRoute, None), [])), BeginWrite(1, j, Cancel(j), []));
            && HasStatus(Act(s1, CommitWrite(1)), j, Cancelled)
            && HasStatus(Act(Act(s1, CommitWrite(1)), CommitWrite(0)), j, EnRoute)
  {
    var patch, cancel := JobWrite(EnRoute, None, None), JobWrite(Cancelled, None, None);
    assert PlanFor(s.db.(payments := []), Patch(j, EnRoute, None), j) == Write(patch);
    assert PlanFor(s.db.(payments := []), Cancel(j), j) == Write(cancel);
    var s1 := Act(Act(s, BeginWrite(0, j, Patch(j, EnRoute, None), [])), BeginWrite(1, j, Cancel(j), []));
    assert s1 == s.(txns := s.txns[0 := WriteRead(j, patch, Assigned)][1 := WriteRead(j, cancel, Assigned)]);
    CommitsWrite(s1, 1);
    CommitsWrite(Act(s1, CommitWrite(1)), 0);
  }

  // ---- When a status can fall ----------------------------------------------------------------

  predicate HoldsLock(t: Txn, j: JobId) {
    (t.AcceptLocked? && t.key.job == j) || (t.DispatchLocked? && t.job == j)
  }

  /** Every lock is held by an accept or a dispatch of its job that is still going on. */
  ghost predicate LocksSound(s: Sys) {
    forall j | j in s.locks :: s.locks[j] in s.txns && HoldsLock(s.txns[s.locks[j]], j)
  }

  lemma ActKeepsLocks(s: Sys, a: Action)
    requires LocksSound(s)
    ensures LocksSound(Act(s, a))
  {
  }

  lemma {:induction false} LocksOverRuns(actions: seq<Action>)
    ensures LocksSound(Steps(START, actions))
  {
    if actions != [] {
      LocksOverRuns(actions[..|actions| - 1]);
      ActKeepsLocks(Steps(START, actions[..|actions| - 1]), actions[|actions| - 1]);
    }
  }

  /** A write of job j, decided already, to a status below the rank. */
  predicate WritesBelow(t: Txn, j: JobId, rank: nat) {
    t.WriteRead? && t.job == j && Rank(t.write.status) < rank
  }

  ghost predicate LowerWriteInFlight(s: Sys, j: JobId, rank: nat) {
    exists id :: id in s.txns && WritesBelow(s.txns[id], j, rank)
  }

  predicate AtLeast(s: Sys, j: JobId, rank: nat) {
    j in s.db.jobs && Rank(s.db.jobs[j].status) >= rank
  }

  lemma RowStaysAbove(s: Sys, a: Action, j: JobId, rank: nat)
    requires Inv(s) && AtLeast(s, j, rank) && !LowerWriteInFlight(s, j, rank)
    ensures AtLeast(Act(s, a), j, rank)
  {
    WritesWhatIsFree(s, a, j);
    if a.CommitAccept? && a.txn in s.txns {
      assert TxnSound(s, a.txn);
    } else if a.CommitWrite? && a.txn in s.txns {
      assert !WritesBelow(s.txns[a.txn], j, rank);
    }
  }

  lemma NoLowerWriteBegins(s: Sys, a: Action, j: JobId, rank: nat)
    requires AtLeast(s, j, rank) && !LowerWriteInFlight(s, j, rank)
    ensures !LowerWriteInFlight(Act(s, a), j, rank)
  {
    if a.BeginWrite? && a.job in s.db.jobs {
      PlanLegal(s.db.(payments := a.payments), a.step, a.job);
    }
    forall id | id in Act(s, a).txns
      ensures !WritesBelow(Act(s, a).txns[id], j, rank)
    {
      assert id in s.txns ==> !WritesBelow(s.txns[id], j, rank);
    }
  }

  lemma {:induction false} StaysAbove(s: Sys, actions: seq<Action>, j: JobId, rank: nat)
    requires Inv(s) && AtLeast(s, j, rank) && !LowerWriteInFlight(s, j, rank)
    ensures AtLeast(Steps(s, actions), j, rank) && !LowerWriteInFlight(Steps(s, actions), j, rank)
  {
    if actions != [] {
      var init, last := actions[..|actions| - 1], actions[|actions| - 1];
      StaysAbove(s, init, j, rank);
      InvKept(s, init);
      RowStaysAbove(Steps(s, init), last, j, rank);
      NoLowerWriteBegins(Steps(s, init), last, j, rank);
    }
  }

  lemma LockedJobsSearch(s: Sys, j: JobId)
    requires Inv(s) && LocksSound(s)
    ensures j in s.locks ==> IsSearching(s.db, j)
  {
  }

  /** A job that has left searching is not locked, so a write of it can commit at once. */
  lemma LowerWriteLowers(s: Sys, j: JobId, id: TxnId)
    requires Inv(s) && LocksSound(s) && j in s.db.jobs
    requires id in s.txns && WritesBelow(s.txns[id], j, Rank(s.db.jobs[j].status))
    ensures !AtLeast(Steps(s, [CommitWrite(id)]), j, Rank(s.db.jobs[j].status))
  {
    LockedJobsSearch(s, j);
    var actions := [CommitWrite(id)];
    assert actions[..0] == [];
    assert Steps(s, actions) == Act(Steps(s, []), CommitWrite(id));
    CommitsWrite(s, id);
  }

  /** In every interleaving, a job will never fall below the status it has, whatever follows, if and
      only if no write of it to a lower status, decided on an older read, is in flight. */
  lemma NeverFallsIff(actions: seq<Action>, j: JobId)
    requires j in Steps(START, actions).db.jobs
    ensures var s := Steps(START, actions);
            var rank := Rank(s.db.jobs[j].status);
            (forall more: seq<Action> :: AtLeast(Steps(s, more), j, rank)) <==> !LowerWriteInFlight(s, j, rank)
  {
    InvOverRuns(actions);
    LocksOverRuns(actions);
    var s := Steps(START, actions);
    var rank := Rank(s.db.jobs[j].status);
    if LowerWriteInFlight(s, j, rank) {
      var id :| id in s.txns && WritesBelow(s.txns[id], j, rank);
      LowerWriteLowers(s, j, id);
    } else {
      forall more: seq<Action>
        ensures AtLeast(Steps(s, more), j, rank)
      {
        StaysAbove(s, more, j, rank);
      }
    }
  }

  /** So a completed job stays completed if and only if no write of it is in flight that was decided
      to end in another status. */
  lemma CompletedForeverIff(actions: seq<Action>, j: JobId)
    requires HasStatus(Steps(START, actions), j, Completed)
    ensures var s := Steps(START, actions);
            (forall more: seq<Action> :: HasStatus(Steps(s, more), j, Completed))
            <==> forall id | id in s.txns && s.txns[id].WriteRead? && s.txns[id].job == j ::
                   s.txns[id].write.status == Completed
  {
    var s := Steps(START, actions);
    NeverFallsIff(actions, j);
    forall t: Sys
      ensures HasStatus(t, j, Completed) <==> AtLeast(t, j, Rank(Completed))
    {
      OnlyCompletedRanksTop(t, j);
    }
    assert LowerWriteInFlight(s, j, Rank(Completed))
      <==> exists id :: id in s.txns && s.txns[id].WriteRead? && s.txns[id].job == j && s.txns[id].write.status != Completed
      by {
        forall id | id in s.txns
          ensures WritesBelow(s.txns[id], j, Rank(Completed))
                  <==> s.txns[id].WriteRead? && s.txns[id].job == j && s.txns[id].write.status != Completed
        {
        }
      }
  }

  lemma OnlyCompletedRanksTop(s: Sys, j: JobId)
    ensures HasStatus(s, j, Completed) <==> AtLeast(s, j, Rank(Completed))
  {
  }

  predicate HasStatus(s: Sys, j: JobId, status: Status) {
    j in s.db.jobs && s.db.jobs[j].status == status
  }

  lemma CommitsWrite(s: Sys, id: TxnId)
    requires id in s.txns && s.txns[id].WriteRead? && s.txns[id].job in s.db.jobs && s.txns[id].job !in s.locks
    ensures var s', t := Act(s, CommitWrite(id)), s.txns[id];
            && s'.db == WriteJob(s.db, t.job, t.write)
            && HasStatus(s', t.job, t.write.status)
            && s'.txns == s.txns - {id} && t.job !in s'.locks
  {
  }

  // ---- When a bill can change ----------------------------------------------------------------

  predicate PricedAs(s: Sys, j: JobId, pricing: Pricing) {
    j in s.db.jobs && s.db.jobs[j].pricing == pricing
  }

  /** The transaction is no write of job j that would change its bill or let it be billed again. */
  predicate KeepsBill(t: Txn, j: JobId, pricing: Pricing) {
    t.WriteRead? && t.job == j ==>
      && Rank(t.write.status) >= Rank(PaymentPending)
      && (t.write.pricing.None? || t.write.pricing.value == pricing)
  }

  /** The job is past billing, and no write in flight changes its bill or takes it back before that. */
  ghost predicate BillSafe(s: Sys, j: JobId, pricing: Pricing) {
    && PricedAs(s, j, pricing)
    && AtLeast(s, j, Rank(PaymentPending))
    && forall id | id in s.txns :: KeepsBill(s.txns[id], j, pricing)
  }

  lemma RowKeepsBill(s: Sys, a: Action, j: JobId, pricing: Pricing)
    requires Inv(s) && BillSafe(s, j, pricing)
    ensures PricedAs(Act(s, a), j, pricing) && AtLeast(Act(s, a), j, Rank(PaymentPending))
  {
    RowStaysAbove(s, a, j, Rank(PaymentPending));
    WritesWhatIsFree(s, a, j);
    if a.CommitAccept? && a.txn in s.txns {
      assert TxnSound(s, a.txn);
    }
  }

  lemma NoRebillBegins(s: Sys, a: Action, j: JobId, pricing: Pricing)
    requires BillSafe(s, j, pricing)
    ensures forall id | id in Act(s, a).txns :: KeepsBill(Act(s, a).txns[id], j, pricing)
  {
    if a.BeginWrite? && a.job in s.db.jobs {
      PlanLegal(s.db.(payments := a.payments), a.step, a.job);
    }
    forall id | id in Act(s, a).txns
      ensures KeepsBill(Act(s, a).txns[id], j, pricing)
    {
      assert id in s.txns ==> KeepsBill(s.txns[id], j, pricing);
    }
  }

  lemma {:induction false} StaysBilled(s: Sys, actions: seq<Action>, j: JobId, pricing: Pricing)
    requires Inv(s) && BillSafe(s, j, pricing)
    ensures BillSafe(Steps(s, actions), j, pricing)
  {
    if actions != [] {
      var init, last := actions[..|actions| - 1], actions[|actions| - 1];
      StaysBilled(s, init, j, pricing);
      InvKept(s, init);
      RowKeepsBill(Steps(s, init), last, j, pricing);
      NoRebillBegins(Steps(s, init), last, j, pricing);
    }
  }

  lemma StepsOne(s: Sys, a: Action)
    ensures Steps(s, [a]) == Act(s, a)
  {
    assert [a][..0] == [];
  }

  lemma {:induction false} StepsConcat(s: Sys, a: seq<Action>, b: seq<Action>)
    ensures Steps(s, a + b) == Steps(Steps(s, a), b)
  {
    if b == [] {
      assert a + b == a;
    } else {
      StepsConcat(s, a, b[..|b| - 1]);
      assert (a + b)[..|a + b| - 1] == a + b[..|b| - 1];
    }
  }

  /** A request that decides and writes at once. */
  lemma DecideAndWrite(s: Sys, j: JobId, step: Step) returns (more: seq<Action>)
    requires j in s.db.jobs && j !in s.locks && !step.Accept?
    requires PlanFor(s.db.(payments := []), step, j).Write?
    ensures var s' := Steps(s, more);
            s'.db == WriteJob(s.db, j, PlanFor(s.db.(payments := []), step, j).write) && j !in s'.locks
  {
    var id := Seqs.AboveAll(s.txns.Keys);
    var begin := BeginWrite(id, j, step, []);
    StepsOne(s, begin);
    var begun := Act(s, begin);
    assert begun.txns[id] == WriteRead(j, PlanFor(s.db.(payments := []), step, j).write, s.db.jobs[j].status);
    CommitsWrite(begun, id);
    StepsOne(begun, CommitWrite(id));
    StepsConcat(s, [begin], [CommitWrite(id)]);
    more := [begin] + [CommitWrite(id)];
  }

  /** A job that can be billed can be billed for something else. */
  lemma Rebill(s: Sys, j: JobId, pricing: Pricing) returns (more: seq<Action>)
    requires j in s.db.jobs && j !in s.locks && Billable(s.db.jobs[j].status)
    ensures !PricedAs(Steps(s, more), j, pricing)
  {
    var service := if pricing.service == Some(0.0) then 1.0 else 0.0;
    more := DecideAndWrite(s, j, Finalize(j, service, map[], 12));
  }

  /** One that is searching can be assigned first, once the lock is free. */
  lemma AssignAndBill(s: Sys, j: JobId, pricing: Pricing) returns (more: seq<Action>)
    requires IsSearching(s.db, j)
    ensures !PricedAs(Steps(s, more), j, pricing)
  {
    var unlock := if j in s.locks then [Rollback(s.locks[j])] else [];
    if j in s.locks { StepsOne(s, Rollback(s.locks[j])); }
    var s1 := Steps(s, unlock);
    var assign := DecideAndWrite(s1, j, Patch(j, Assigned, None));
    StepsConcat(s, unlock, assign);
    var rebill := Rebill(Steps(s1, assign), j, pricing);
    StepsConcat(s, unlock + assign, rebill);
    more := unlock + assign + rebill;
  }

  /** A write in flight that does not keep the bill breaks it, or lets the job be billed again. */
  lemma WriteBreaksBill(s: Sys, j: JobId, pricing: Pricing, id: TxnId) returns (more: seq<Action>)
    requires Inv(s) && j in s.db.jobs && j !in s.locks && PricedAs(s, j, pricing)
    requires id in s.txns && !KeepsBill(s.txns[id], j, pricing)
    ensures !PricedAs(Steps(s, more), j, pricing)
  {
    assert TxnSound(s, id);
    CommitsWrite(s, id);
    StepsOne(s, CommitWrite(id));
    more := [CommitWrite(id)];
    var s1 := Act(s, CommitWrite(id));
    if PricedAs(s1, j, pricing) {
      var rebill := Rebill(s1, j, pricing);
      StepsConcat(s, [CommitWrite(id)], rebill);
      more := [CommitWrite(id)] + rebill;
    }
  }

  lemma BillBreaks(s: Sys, j: JobId, pricing: Pricing) returns (more: seq<Action>)
    requires Inv(s) && LocksSound(s) && PricedAs(s, j, pricing) && !BillSafe(s, j, pricing)
    ensures !PricedAs(Steps(s, more), j, pricing)
  {
    LockedJobsSearch(s, j);
    if IsSearching(s.db, j) {
      more := AssignAndBill(s, j, pricing);
    } else if !AtLeast(s, j, Rank(PaymentPending)) {
      more := Rebill(s, j, pricing);
    } else {
      var id :| id in s.txns && !KeepsBill(s.txns[id], j, pricing);
      more := WriteBreaksBill(s, j, pricing, id);
    }
  }

  /** In every interleaving, a job's bill stays as it is, whatever follows, if and only if the job is
      past billing, and no write of it in flight carries another bill or takes it back before. */
  lemma BillForeverIff(actions: seq<Action>, j: JobId)
    requires j in Steps(START, actions).db.jobs
    ensures var s := Steps(START, actions);
            var pricing := s.db.jobs[j].pricing;
            (forall more: seq<Action> :: PricedAs(Steps(s, more), j, pricing)) <==> BillSafe(s, j, pricing)
  {
    InvOverRuns(actions);
    LocksOverRuns(actions);
    var s := Steps(START, actions);
    var pricing := s.db.jobs[j].pricing;
    if BillSafe(s, j, pricing) {
      forall more: seq<Action>
        ensures PricedAs(Steps(s, more), j, pricing)
      {
        StaysBilled(s, more, j, pricing);
      }
    } else {
      var more := BillBreaks(s, j, pricing);
    }
  }

  /** Two finalizations that read an assigned job side by side: the second bill replaces the first. */
  lemma SecondBillReplaces(s: Sys, j: JobId, a: real, b: real, hour: nat)
    requires j in s.db.jobs && s.db.jobs[j].status == Assigned && j !in s.locks
    requires 0 !in s.txns && 1 !in s.txns
    ensures var s1 := Act(Act(s, BeginWrite(0, j, Finalize(j, a, map[], hour), [])),
                          BeginWrite(1, j, Finalize(j, b, map[], hour), []));
            && PricedAs(Act(s1, CommitWrite(0)), j, BillFor(a, 0.0, IsNight(hour)))
            && PricedAs(Act(Act(s1, CommitWrite(0)), CommitWrite(1)), j, BillFor(b, 0.0, IsNight(hour)))
  {
    var first := JobWrite(PaymentPending, None, Some(BillFor(a, 0.0, IsNight(hour))));
    var second := JobWrite(PaymentPending, None, Some(BillFor(b, 0.0, IsNight(hour))));
    assert PlanFor(s.db.(payments := []), Finalize(j, a, map[], hour), j) == Write(first);
    assert PlanFor(s.db.(payments := []), Finalize(j, b, map[], hour), j) == Write(second);
    var s1 := Act(Act(s, BeginWrite(0, j, Finalize(j, a, map[], hour), [])),
                  BeginWrite(1, j, Finalize(j, b, map[], hour), []));
    assert s1 == s.(txns := s.txns[0 := WriteRead(j, first, Assigned)][1 := WriteRead(j, second, Assigned)]);
    CommitsWrite(s1, 0);
    CommitsWrite(Act(s1, CommitWrite(0)), 1);
  }
}
