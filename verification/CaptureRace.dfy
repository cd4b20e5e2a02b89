/** Deliveries about one payment side by side. A confirmation or a gateway notice reads the payment
    row without a lock, decides, and commits later; others may read the same row in between. */
module CaptureRace {
  import opened Records
  import opened Payments
  import opened Cashflow
  import Seqs

  type TxnId = nat

  /** What a delivery has decided to do to the payment. */
  datatype Txn = Capturing(gatewayId: Option<string>, via: Option<string>) | Failing

  datatype Race = Race(db: Db, pending: map<TxnId, Txn>)

  datatype Action = Begin(txn: TxnId, decision: Txn) | Commit(txn: TxnId) | Rollback(txn: TxnId)

  /** A capture goes on unless the row is captured, a failure only while it is pending. */
  predicate Proceeds(status: PayStatus, t: Txn) {
    if t.Capturing? then status != Captured else status == Awaiting
  }

  function Effect(db: Db, i: nat, t: Txn): Db
    requires i < |db.payments|
  {
    if t.Capturing? then Capture(db, i, t.gatewayId, t.via)
    else db.(payments := db.payments[i := db.payments[i].(status := Failed)])
  }

  function Act(s: Race, i: nat, a: Action): (r: Race)
    requires i < |s.db.payments|
    ensures |r.db.payments| == |s.db.payments|
  {
    match a
    case Begin(id, t) =>
      if id !in s.pending && Proceeds(s.db.payments[i].status, t) then s.(pending := s.pending[id := t]) else s
    case Commit(id) =>
      if id in s.pending then Race(Effect(s.db, i, s.pending[id]), s.pending - {id}) else s
    case Rollback(id) => s.(pending := s.pending - {id})
  }

  function Steps(s: Race, i: nat, actions: seq<Action>): (r: Race)
    requires i < |s.db.payments|
    ensures |r.db.payments| == |s.db.payments|
  {
    if actions == [] then s else Act(Steps(s, i, actions[..|actions| - 1]), i, actions[|actions| - 1])
  }

  /** A delivery with nothing in between is one of the serial requests. */
  lemma BeginThenCommit(db: Db, i: nat, user: UserId, gatewayId: string)
    requires i < |db.payments| && db.payments[i].user == user
    ensures var t := Capturing(Some(gatewayId), Some("online"));
            Act(Act(Race(db, map[]), i, Begin(0, t)), i, Commit(0)).db == VerifyStep(db, i, user, gatewayId).0
  {
  }

  /** And a notice, heard, is the serial notice. */
  lemma NoticeAlone(db: Db, i: nat, order: string, event: Event, gatewayId: Option<string>, via: string)
    requires i < |db.payments| && db.payments[i].orderId == Some(order) && Heard(db, i, order)
    requires event != OtherEvent
    ensures var t := if event == CaptureEvent then Capturing(gatewayId, Some(via)) else Failing;
            Act(Act(Race(db, map[]), i, Begin(0, t)), i, Commit(0)).db
            == WebhookStep(db, event, Some(order), gatewayId, via).0
  {
    WebhookLaw(db, event, order, gatewayId, via, i);
  }

  /** The payment's job has a bill. */
  predicate OfBill(db: Db, i: nat)
    requires i < |db.payments|
  {
    db.payments[i].job in db.jobs && Billed(db.jobs[db.payments[i].job].pricing)
  }

  function Paid(s: Race, i: nat): nat {
    |PaidOut(s.db.payouts, i)|
  }

  /** The captures that are still to come. */
  function CapturesPending(s: Race): set<TxnId> {
    set id | id in s.pending && s.pending[id].Capturing?
  }

  predicate Failure(s: Race, id: TxnId) {
    id in s.pending && s.pending[id].Failing?
  }

  lemma EffectPays(db: Db, i: nat, t: Txn)
    requires i < |db.payments| && OfBill(db, i)
    ensures OfBill(Effect(db, i, t), i)
    ensures |PaidOut(Effect(db, i, t).payouts, i)| == |PaidOut(db.payouts, i)| + if t.Capturing? then 1 else 0
    ensures Effect(db, i, t).payments[i].status == if t.Capturing? then Captured else Failed
  {
  }

  lemma EndedPending(s: Race, i: nat, a: Action)
    requires i < |s.db.payments| && !a.Begin? && a.txn in s.pending
    ensures |CapturesPending(Act(s, i, a))| == |CapturesPending(s)| - if s.pending[a.txn].Capturing? then 1 else 0
  {
    var ids := CapturesPending(s);
    assert CapturesPending(Act(s, i, a)) == ids - {a.txn};
    if a.txn !in ids {
      assert ids - {a.txn} == ids;
    }
  }

  /** A commit pays what was still to come, a rollback drops it; only a begin adds to that. */
  lemma ActPays(s: Race, i: nat, a: Action)
    requires i < |s.db.payments| && OfBill(s.db, i)
    ensures var s' := Act(s, i, a);
            && OfBill(s'.db, i)
            && Paid(s', i) >= Paid(s, i)
            && (!a.Begin? ==> Paid(s', i) + |CapturesPending(s')| <= Paid(s, i) + |CapturesPending(s)|)
  {
    if !a.Begin? && a.txn in s.pending {
      EffectPays(s.db, i, s.pending[a.txn]);
      EndedPending(s, i, a);
    } else if a.Rollback? {
      assert Act(s, i, a) == s;
    }
  }

  /** What is pending commits or is rolled back, and nothing new begins. */
  ghost predicate OnlyEnds(actions: seq<Action>) {
    forall k :: 0 <= k < |actions| ==> !actions[k].Begin?
  }

  lemma {:induction false} EndsPay(s: Race, i: nat, actions: seq<Action>)
    requires i < |s.db.payments| && OfBill(s.db, i) && OnlyEnds(actions)
    ensures var s' := Steps(s, i, actions);
            OfBill(s'.db, i) && Paid(s', i) + |CapturesPending(s')| <= Paid(s, i) + |CapturesPending(s)|
  {
    if actions != [] {
      EndsPay(s, i, actions[..|actions| - 1]);
      ActPays(Steps(s, i, actions[..|actions| - 1]), i, actions[|actions| - 1]);
    }
  }

  lemma CommitOne(s: Race, i: nat, id: TxnId)
    requires i < |s.db.payments| && OfBill(s.db, i) && id in CapturesPending(s)
    ensures Steps(s, i, [Commit(id)]) == Act(s, i, Commit(id))
    ensures Paid(Steps(s, i, [Commit(id)]), i) == Paid(s, i) + 1
  {
  }

  lemma CommitTwo(s: Race, i: nat, a: TxnId, b: TxnId)
    requires i < |s.db.payments| && OfBill(s.db, i)
    requires a in CapturesPending(s) && b in CapturesPending(s) && a != b
    ensures Paid(Steps(s, i, [Commit(a), Commit(b)]), i) == Paid(s, i) + 2
  {
    CommitOne(s, i, a);
    var s' := Act(s, i, Commit(a));
    assert [Commit(a), Commit(b)][..1] == [Commit(a)];
    ActPays(s, i, Commit(a));
    CommitOne(s', i, b);
  }

  ghost predicate PaysAtMostOnce(s: Race, i: nat, actions: seq<Action>)
    requires i < |s.db.payments|
  {
    OnlyEnds(actions) ==> Paid(Steps(s, i, actions), i) <= 1
  }

  lemma TwoOf(ids: set<TxnId>) returns (a: TxnId, b: TxnId)
    requires |ids| >= 2
    ensures a in ids && b in ids && a != b
  {
    a :| a in ids;
    assert |ids - {a}| >= 1;
    b :| b in ids - {a};
  }

  /** Two payouts, made or to come, can be made. */
  lemma PaysMore(s: Race, i: nat) returns (more: seq<Action>)
    requires i < |s.db.payments| && OfBill(s.db, i) && Paid(s, i) + |CapturesPending(s)| > 1
    ensures OnlyEnds(more) && Paid(Steps(s, i, more), i) > 1
  {
    if Paid(s, i) > 1 {
      more := [];
    } else if Paid(s, i) == 1 {
      assert |CapturesPending(s)| > 0;
      var a :| a in CapturesPending(s);
      CommitOne(s, i, a);
      more := [Commit(a)];
    } else {
      var a, b := TwoOf(CapturesPending(s));
      CommitTwo(s, i, a, b);
      more := [Commit(a), Commit(b)];
    }
  }

  /** Whatever of the pending commits, in whatever order, the bill is paid out at most once if and only
      if it has been paid out, or is about to be, at most once in all. */
  lemma CompletesPaidOnceIff(s: Race, i: nat)
    requires i < |s.db.payments| && OfBill(s.db, i)
    ensures (forall more: seq<Action> :: PaysAtMostOnce(s, i, more)) <==> Paid(s, i) + |CapturesPending(s)| <= 1
  {
    if Paid(s, i) + |CapturesPending(s)| <= 1 {
      forall more: seq<Action>
        ensures PaysAtMostOnce(s, i, more)
      {
        if OnlyEnds(more) { EndsPay(s, i, more); }
      }
    } else {
      var more := PaysMore(s, i);
      assert !PaysAtMostOnce(s, i, more);
    }
  }

  ghost predicate CapturedForGood(s: Race, i: nat)
    requires i < |s.db.payments|
  {
    s.db.payments[i].status == Captured && forall id :: !Failure(s, id)
  }

  lemma ActStaysCaptured(s: Race, i: nat, a: Action)
    requires i < |s.db.payments| && CapturedForGood(s, i)
    ensures CapturedForGood(Act(s, i, a), i)
  {
    assert !Failure(s, a.txn);
    forall id
      ensures !Failure(Act(s, i, a), id)
    {
      assert !Failure(s, id);
    }
  }

  lemma {:induction false} StaysCaptured(s: Race, i: nat, actions: seq<Action>)
    requires i < |s.db.payments| && CapturedForGood(s, i)
    ensures CapturedForGood(Steps(s, i, actions), i)
  {
    if actions != [] {
      StaysCaptured(s, i, actions[..|actions| - 1]);
      ActStaysCaptured(Steps(s, i, actions[..|actions| - 1]), i, actions[|actions| - 1]);
    }
  }

  /** A captured payment stays captured, whatever begins and commits, if and only if no failure notice
      that read it while it was pending is still to come. */
  lemma StaysCapturedIff(s: Race, i: nat)
    requires i < |s.db.payments| && s.db.payments[i].status == Captured
    ensures (forall more: seq<Action> :: Steps(s, i, more).db.payments[i].status == Captured)
            <==> forall id :: !Failure(s, id)
  {
    if forall id :: !Failure(s, id) {
      forall more: seq<Action>
        ensures Steps(s, i, more).db.payments[i].status == Captured
      {
        StaysCaptured(s, i, more);
      }
    } else {
      var id :| Failure(s, id);
      StepsOne(s, i, Commit(id));
    }
  }

  // ---- Whatever follows ----------------------------------------------------------------------

  lemma StepsOne(s: Race, i: nat, a: Action)
    requires i < |s.db.payments|
    ensures Steps(s, i, [a]) == Act(s, i, a)
  {
    assert [a][..0] == [];
  }

  lemma {:induction false} StepsConcat(s: Race, i: nat, a: seq<Action>, b: seq<Action>)
    requires i < |s.db.payments|
    ensures Steps(s, i, a + b) == Steps(Steps(s, i, a), i, b)
  {
    if b == [] {
      assert a + b == a;
    } else {
      StepsConcat(s, i, a, b[..|b| - 1]);
      assert (a + b)[..|a + b| - 1] == a + b[..|b| - 1];
    }
  }

  /** The payment is captured for good, and payouts made and to come are at most one. */
  ghost predicate SafeFromNow(s: Race, i: nat)
    requires i < |s.db.payments|
  {
    CapturedForGood(s, i) && Paid(s, i) + |CapturesPending(s)| <= 1
  }

  lemma {:induction false} StaysSafe(s: Race, i: nat, actions: seq<Action>)
    requires i < |s.db.payments| && OfBill(s.db, i) && SafeFromNow(s, i)
    ensures OfBill(Steps(s, i, actions).db, i) && SafeFromNow(Steps(s, i, actions), i)
  {
    if actions != [] {
      var mid, last := Steps(s, i, actions[..|actions| - 1]), actions[|actions| - 1];
      StaysSafe(s, i, actions[..|actions| - 1]);
      ActStaysCaptured(mid, i, last);
      ActPays(mid, i, last);
      assert last.Begin? ==> Act(mid, i, last) == mid;
    }
  }

  /** Two captures that begin while the payment is not captured, and both commit. */
  lemma BothPay(s: Race, i: nat) returns (more: seq<Action>)
    requires i < |s.db.payments| && OfBill(s.db, i) && s.db.payments[i].status != Captured
    ensures Paid(Steps(s, i, more), i) > 1
  {
    var t := Capturing(None, None);
    var a := Seqs.AboveAll(s.pending.Keys);
    var b := a + 1;
    TwoConfirmationsPayTwice(s, i, t, a, b);
    StepsTwo(s, i, Begin(a, t), Begin(b, t));
    more := [Begin(a, t), Begin(b, t)] + [Commit(a), Commit(b)];
    StepsConcat(s, i, [Begin(a, t), Begin(b, t)], [Commit(a), Commit(b)]);
  }

  lemma StepsTwo(s: Race, i: nat, a: Action, b: Action)
    requires i < |s.db.payments|
    ensures Steps(s, i, [a, b]) == Act(Act(s, i, a), i, b)
  {
    StepsOne(s, i, a);
    assert [a, b][..1] == [a];
  }

  lemma UnsafePays(s: Race, i: nat) returns (more: seq<Action>)
    requires i < |s.db.payments| && OfBill(s.db, i) && !SafeFromNow(s, i)
    ensures Paid(Steps(s, i, more), i) > 1
  {
    if Paid(s, i) + |CapturesPending(s)| > 1 {
      more := PaysMore(s, i);
    } else if s.db.payments[i].status != Captured {
      more := BothPay(s, i);
    } else {
      var id :| Failure(s, id);
      EffectPays(s.db, i, Failing);
      StepsOne(s, i, Commit(id));
      var rest := BothPay(Act(s, i, Commit(id)), i);
      StepsConcat(s, i, [Commit(id)], rest);
      more := [Commit(id)] + rest;
    }
  }

  /** Whatever begins and commits from now on, the bill is paid out at most once if and only if the
      payment is captured, no failure notice that could undo that is pending, and payouts made and to
      come are at most one. */
  lemma PaidAtMostOnceIff(s: Race, i: nat)
    requires i < |s.db.payments| && OfBill(s.db, i)
    ensures (forall more: seq<Action> :: Paid(Steps(s, i, more), i) <= 1) <==> SafeFromNow(s, i)
  {
    if SafeFromNow(s, i) {
      forall more: seq<Action>
        ensures Paid(Steps(s, i, more), i) <= 1
      {
        StaysSafe(s, i, more);
      }
    } else {
      var more := UnsafePays(s, i);
    }
  }

  // ---- Deliveries that do not overlap --------------------------------------------------------

  /** At no point of the run are two deliveries pending. */
  ghost predicate NeverOverlap(s: Race, i: nat, actions: seq<Action>)
    requires i < |s.db.payments|
  {
    && (forall a, b :: a in Steps(s, i, actions).pending && b in Steps(s, i, actions).pending ==> a == b)
    && (actions != [] ==> NeverOverlap(s, i, actions[..|actions| - 1]))
  }

  /** Nothing paid and whatever is pending still due, or paid once, captured, and nothing pending. */
  predicate InStep(s: Race, i: nat)
    requires i < |s.db.payments|
  {
    var status := s.db.payments[i].status;
    && OfBill(s.db, i)
    && (status == Captured ==> Paid(s, i) == 1 && s.pending == map[])
    && (status != Captured ==> Paid(s, i) == 0 && forall id | id in s.pending :: Proceeds(status, s.pending[id]))
  }

  /** So in a run in which deliveries do not overlap, the payment is paid out once exactly when it is
      captured, and then nothing is to come that could change it. */
  lemma {:induction false} PaidOnceInStep(s: Race, i: nat, actions: seq<Action>)
    requires i < |s.db.payments| && InStep(s, i) && NeverOverlap(s, i, actions)
    ensures InStep(Steps(s, i, actions), i)
  {
    if actions != [] {
      var init, last := actions[..|actions| - 1], actions[|actions| - 1];
      PaidOnceInStep(s, i, init);
      ActInStep(Steps(s, i, init), i, last);
    }
  }

  lemma ActInStep(s: Race, i: nat, a: Action)
    requires i < |s.db.payments| && InStep(s, i)
    requires forall x, y :: x in s.pending && y in s.pending ==> x == y
    ensures InStep(Act(s, i, a), i)
  {
    if a.Commit? && a.txn in s.pending {
      EffectPays(s.db, i, s.pending[a.txn]);
      assert Act(s, i, a).pending == map[];
    }
  }

  /** Two confirmations that read a pending payment before either commits pay its bill out twice. */
  lemma TwoConfirmationsPayTwice(s: Race, i: nat, t: Txn, a: TxnId, b: TxnId)
    requires i < |s.db.payments| && OfBill(s.db, i) && s.db.payments[i].status != Captured && t.Capturing?
    requires a !in s.pending && b !in s.pending && a != b
    ensures var both := Act(Act(s, i, Begin(a, t)), i, Begin(b, t));
            Paid(Steps(both, i, [Commit(a), Commit(b)]), i) == Paid(s, i) + 2
  {
    var both := Act(Act(s, i, Begin(a, t)), i, Begin(b, t));
    assert both == Race(s.db, s.pending[a := t][b := t]);
    CommitTwo(both, i, a, b);
  }
}
