/** The throttle on stored positions: a mechanic's position goes to the database at most once in
    thirty seconds. The table of last writes is shared by all sockets; it is looked at when a
    position arrives, and stamped when the write has been committed. In between, another socket may
    look. */
module LocationThrottle {
  import opened Records
  import opened Seqs
  import opened Windows

  const INTERVAL: real := 30.0
  const HALF_MINUTE := Window(INTERVAL, false)

  /** A position of a user; the clock when the table is looked at and when the write is done. */
  datatype Fix = Fix(user: UserId, checked: real, stamped: real)

  /** A user without an entry counts as written at the epoch. */
  function LastPersist(last: map<UserId, real>, u: UserId): real {
    if u in last then last[u] else 0.0
  }

  predicate Due(last: map<UserId, real>, u: UserId, now: real) {
    now - LastPersist(last, u) >= INTERVAL
  }

  function Step(last: map<UserId, real>, f: Fix): (map<UserId, real>, bool) {
    if Due(last, f.user, f.checked) then (last[f.user := f.stamped], true) else (last, false)
  }

  class LocationStore {
    var lastDbPersist: map<UserId, real>

    constructor ()
      ensures lastDbPersist == map[]
    {
      lastDbPersist := map[];
    }

    /** A position that nothing comes in between. */
    method Locate(f: Fix) returns (persisted: bool)
      modifies this
      ensures (lastDbPersist, persisted) == Step(old(lastDbPersist), f)
    {
      var lastPersist := if f.user in lastDbPersist then lastDbPersist[f.user] else 0.0;
      if f.checked - lastPersist >= INTERVAL {
        lastDbPersist := lastDbPersist[f.user := f.stamped];
        return true;
      }
      return false;
    }
  }

  // ---- Sockets side by side ------------------------------------------------------------------

  type TxnId = nat

  datatype Write = Write(user: UserId, at: real)

  /** Writes that have passed the look and are not stamped yet are pending. */
  datatype Sys = Sys(last: map<UserId, real>, pending: map<TxnId, UserId>, clock: real, writes: seq<Write>)

  /** A write that fails is dropped. */
  datatype Action =
    | Look(txn: TxnId, user: UserId, now: real)
    | Stamp(txn: TxnId, now: real)
    | Drop(txn: TxnId, now: real)

  /** The clock has left the first half minute of the epoch behind. */
  const START := Sys(map[], map[], INTERVAL, [])

  /** An action in the past, a look with an id in use, and a stamp of nothing pending do nothing. */
  function Act(s: Sys, a: Action): Sys {
    if a.now < s.clock then s
    else
      match a
      case Look(id, u, now) =>
        if id !in s.pending && Due(s.last, u, now) then s.(pending := s.pending[id := u], clock := now)
        else s.(clock := now)
      case Stamp(id, now) =>
        if id in s.pending
        then Sys(s.last[s.pending[id] := now], s.pending - {id}, now, s.writes + [Write(s.pending[id], now)])
        else s.(clock := now)
      case Drop(id, now) => s.(pending := s.pending - {id}, clock := now)
  }

  function Steps(s: Sys, actions: seq<Action>): Sys {
    if actions == [] then s else Act(Steps(s, actions[..|actions| - 1]), actions[|actions| - 1])
  }

  function WritesOf(writes: seq<Write>, u: UserId): seq<real> {
    if writes == [] then []
    else
      var rest, last := WritesOf(writes[..|writes| - 1], u), writes[|writes| - 1];
      if last.user == u then rest + [last.at] else rest
  }

  /** A look and a stamp with nothing in between are what a position does on its own. */
  lemma LookThenStamp(s: Sys, id: TxnId, f: Fix)
    requires id !in s.pending && s.clock <= f.checked <= f.stamped
    ensures Act(Act(s, Look(id, f.user, f.checked)), Stamp(id, f.stamped)).last == Step(s.last, f).0
  {
  }

  lemma WritesSnoc(writes: seq<Write>, w: Write, u: UserId)
    ensures WritesOf(writes + [w], u) == WritesOf(writes, u) + if w.user == u then [w.at] else []
  {
  }

  // ---- One remembered instant ----------------------------------------------------------------

  /** The table holds the last of the user's writes. */
  ghost predicate Remembers(s: Sys, u: UserId) {
    var writes := WritesOf(s.writes, u);
    && (u in s.last <==> writes != [])
    && (u in s.last ==> s.last[u] == writes[|writes| - 1])
    && Ordered(writes, s.clock)
    && INTERVAL <= s.clock
  }

  lemma OrderedSnoc(history: seq<real>, before: real, now: real)
    requires Ordered(history, before) && before <= now
    ensures Ordered(history, now) && Ordered(history + [now], now)
  {
    var more := history + [now];
    forall i, j | 0 <= i < j < |more|
      ensures more[i] <= more[j]
    {
      assert more[i] == history[i];
      assert j < |history| ==> more[j] == history[j];
    }
  }

  lemma StampRemembers(s: Sys, id: TxnId, now: real, u: UserId)
    requires Remembers(s, u) && id in s.pending && s.clock <= now
    ensures Remembers(Act(s, Stamp(id, now)), u)
  {
    WritesSnoc(s.writes, Write(s.pending[id], now), u);
    OrderedSnoc(WritesOf(s.writes, u), s.clock, now);
  }

  lemma ClockRemembers(s: Sys, s': Sys, u: UserId)
    requires Remembers(s, u) && s'.last == s.last && s'.writes == s.writes && s.clock <= s'.clock
    ensures Remembers(s', u)
  {
    OrderedSnoc(WritesOf(s.writes, u), s.clock, s'.clock);
  }

  lemma ActRemembers(s: Sys, a: Action, u: UserId)
    requires Remembers(s, u)
    ensures Remembers(Act(s, a), u)
  {
    if a.Stamp? && a.txn in s.pending && s.clock <= a.now {
      StampRemembers(s, a.txn, a.now, u);
    } else {
      ClockRemembers(s, Act(s, a), u);
    }
  }

  lemma {:induction false} RemembersOverRuns(actions: seq<Action>, u: UserId)
    ensures Remembers(Steps(START, actions), u)
  {
    if actions != [] {
      RemembersOverRuns(actions[..|actions| - 1], u);
      ActRemembers(Steps(START, actions[..|actions| - 1]), actions[|actions| - 1], u);
    }
  }

  /** In an ordered history nothing counts exactly when the last instant does not. */
  lemma RecentIsLast(w: Window, history: seq<real>, now: real)
    requires history != [] && Ordered(history, now)
    ensures Recent(w, history, now) == [] <==> !Covers(w, history[|history| - 1], now)
  {
    var last := history[|history| - 1];
    if !Covers(w, last, now) {
      FilterNone(Counting(w, now), history);
    } else {
      assert last in history && Counting(w, now)(last);
    }
  }

  lemma DueIffNoneRecent(s: Sys, u: UserId, now: real)
    requires Remembers(s, u) && s.clock <= now
    ensures Due(s.last, u, now) <==> Recent(HALF_MINUTE, WritesOf(s.writes, u), now) == []
  {
    if WritesOf(s.writes, u) != [] {
      RecentIsLast(HALF_MINUTE, WritesOf(s.writes, u), now);
    }
  }

  /** In every interleaving, the one remembered instant decides as the full history would: a look
      passes exactly when none of the user's writes was stamped in the half minute before it. */
  lemma PersistsIffNoneRecent(actions: seq<Action>, u: UserId, now: real)
    requires Steps(START, actions).clock <= now
    ensures var s := Steps(START, actions);
            Due(s.last, u, now) <==> Recent(HALF_MINUTE, WritesOf(s.writes, u), now) == []
  {
    RemembersOverRuns(actions, u);
    DueIffNoneRecent(Steps(START, actions), u, now);
  }

  // ---- Overlapping writes --------------------------------------------------------------------

  /** The user's writes so far, each stamped with none other in the half minute before. */
  ghost predicate Spaced(s: Sys, u: UserId) {
    Admissible(HALF_MINUTE, WritesOf(s.writes, u), 1)
  }

  ghost predicate Alone(s: Sys, u: UserId) {
    forall a, b :: a in s.pending && b in s.pending && s.pending[a] == s.pending[b] == u ==> a == b
  }

  /** At most one write of the user is pending, and if one is, no other was stamped since its look. */
  ghost predicate Calm(s: Sys, u: UserId) {
    && Alone(s, u)
    && forall id :: id in s.pending && s.pending[id] == u ==> Due(s.last, u, s.clock)
  }

  lemma StampSpaced(s: Sys, id: TxnId, now: real, u: UserId)
    requires Remembers(s, u) && Spaced(s, u) && Calm(s, u) && s.clock <= now
    requires id in s.pending && s.pending[id] == u
    ensures Spaced(Act(s, Stamp(id, now)), u)
  {
    DueIffNoneRecent(s, u, now);
    WritesSnoc(s.writes, Write(u, now), u);
    AdmissibleSnoc(HALF_MINUTE, WritesOf(s.writes, u), now, 1);
  }

  lemma ActSpaced(s: Sys, a: Action, u: UserId)
    requires Remembers(s, u) && Spaced(s, u) && Calm(s, u)
    ensures Spaced(Act(s, a), u)
    ensures Alone(Act(s, a), u) ==> Calm(Act(s, a), u)
    ensures !a.Look? ==> Alone(Act(s, a), u)
  {
    if a.Stamp? && a.txn in s.pending && s.clock <= a.now {
      if s.pending[a.txn] == u {
        StampSpaced(s, a.txn, a.now, u);
      } else {
        WritesSnoc(s.writes, Write(s.pending[a.txn], a.now), u);
      }
    }
  }

  /** At no point of the run are two writes of the user pending. */
  ghost predicate NeverOverlap(actions: seq<Action>, u: UserId) {
    Alone(Steps(START, actions), u) && (actions != [] ==> NeverOverlap(actions[..|actions| - 1], u))
  }

  lemma {:induction false} SpacedOverRuns(actions: seq<Action>, u: UserId)
    requires NeverOverlap(actions, u)
    ensures Spaced(Steps(START, actions), u) && Calm(Steps(START, actions), u)
  {
    if actions != [] {
      var init := actions[..|actions| - 1];
      SpacedOverRuns(init, u);
      RemembersOverRuns(init, u);
      ActSpaced(Steps(START, init), actions[|actions| - 1], u);
    }
  }

  /** As long as no two writes of a user are pending at once, no thirty seconds anywhere see two of
      their writes, whatever the sockets of others do. */
  lemma AtMostOneWrite(actions: seq<Action>, u: UserId, from: real)
    requires NeverOverlap(actions, u)
    ensures |Inside(HALF_MINUTE, WritesOf(Steps(START, actions).writes, u), from)| <= 1
  {
    var s := Steps(START, actions);
    SpacedOverRuns(actions, u);
    RemembersOverRuns(actions, u);
    NoWindowOverfull(HALF_MINUTE, WritesOf(s.writes, u), 1, s.clock, from);
  }

  /** What is pending is stamped or dropped, and nothing new begins. */
  ghost predicate OnlyEnds(actions: seq<Action>) {
    forall k :: 0 <= k < |actions| ==> !actions[k].Look?
  }

  lemma {:induction false} CalmCompletes(s: Sys, actions: seq<Action>, u: UserId)
    requires Remembers(s, u) && Spaced(s, u) && Calm(s, u) && OnlyEnds(actions)
    ensures Remembers(Steps(s, actions), u) && Spaced(Steps(s, actions), u) && Calm(Steps(s, actions), u)
  {
    if actions != [] {
      var init, last := actions[..|actions| - 1], actions[|actions| - 1];
      CalmCompletes(s, init, u);
      ActRemembers(Steps(s, init), last, u);
      ActSpaced(Steps(s, init), last, u);
    }
  }

  /** A write stamped now, half a minute not being over since the user's last. */
  lemma StampTooSoon(s: Sys, id: TxnId, u: UserId)
    requires Remembers(s, u) && id in s.pending && s.pending[id] == u && !Due(s.last, u, s.clock)
    ensures !Spaced(Act(s, Stamp(id, s.clock)), u)
  {
    var writes := WritesOf(s.writes, u);
    DueIffNoneRecent(s, u, s.clock);
    WritesSnoc(s.writes, Write(u, s.clock), u);
    assert (writes + [s.clock])[..|writes|] == writes;
    assert !Entered(HALF_MINUTE, writes + [s.clock], |writes|, 1);
  }

  lemma StampBoth(s: Sys, a: TxnId, b: TxnId, u: UserId)
    requires Remembers(s, u) && a != b
    requires a in s.pending && b in s.pending && s.pending[a] == s.pending[b] == u
    ensures !Spaced(Act(Act(s, Stamp(a, s.clock)), Stamp(b, s.clock)), u)
  {
    ActRemembers(s, Stamp(a, s.clock), u);
    StampTooSoon(Act(s, Stamp(a, s.clock)), b, u);
  }

  lemma StepsOfTwo(s: Sys, a: Action, b: Action)
    ensures Steps(s, [a]) == Act(s, a)
    ensures Steps(s, [a, b]) == Act(Act(s, a), b)
  {
  }

  /** Stamps of what is pending that bring two of the user's writes too close. */
  lemma StampsTooSoon(s: Sys, u: UserId) returns (more: seq<Action>)
    requires Remembers(s, u) && !Calm(s, u)
    ensures OnlyEnds(more) && !Spaced(Steps(s, more), u)
  {
    if Alone(s, u) {
      var id :| id in s.pending && s.pending[id] == u && !Due(s.last, u, s.clock);
      more := [Stamp(id, s.clock)];
      StepsOfTwo(s, Stamp(id, s.clock), Stamp(id, s.clock));
      StampTooSoon(s, id, u);
    } else {
      var a, b :| a in s.pending && b in s.pending && s.pending[a] == s.pending[b] == u && a != b;
      more := [Stamp(a, s.clock), Stamp(b, s.clock)];
      StepsOfTwo(s, Stamp(a, s.clock), Stamp(b, s.clock));
      StampBoth(s, a, b, u);
    }
  }

  ghost predicate CompletesSpaced(s: Sys, u: UserId, more: seq<Action>) {
    OnlyEnds(more) ==> Spaced(Steps(s, more), u)
  }

  /** And that is exact: in every interleaving in which the user's writes have been half a minute
      apart so far, they stay so in whatever order and whenever the pending ones are stamped or dropped, if and
      only if at most one is pending, and no other was stamped in the last half minute if one is. */
  lemma CalmIff(actions: seq<Action>, u: UserId)
    requires Spaced(Steps(START, actions), u)
    ensures var s := Steps(START, actions);
            Calm(s, u) <==> forall more: seq<Action> :: CompletesSpaced(s, u, more)
  {
    var s := Steps(START, actions);
    RemembersOverRuns(actions, u);
    if Calm(s, u) {
      forall more: seq<Action>
        ensures CompletesSpaced(s, u, more)
      {
        if OnlyEnds(more) { CalmCompletes(s, more, u); }
      }
    } else {
      var more := StampsTooSoon(s, u);
      assert !CompletesSpaced(s, u, more);
    }
  }

  lemma {:induction false} StepsConcat(s: Sys, a: seq<Action>, b: seq<Action>)
    ensures Steps(s, a + b) == Steps(Steps(s, a), b)
  {
    if b == [] {
      assert a + b == a;
    } else {
      StepsConcat(s, a, b[..|b| - 1]);
      assert (a + b)[..|a + b| - 1] == a + b[..|b| - 1];
    }
  }

  /** When new looks may follow, no state is safe: two sockets that look together get through. */
  lemma NeverSafe(actions: seq<Action>, u: UserId) returns (more: seq<Action>)
    ensures !Spaced(Steps(Steps(START, actions), more), u)
  {
    var s := Steps(START, actions);
    RemembersOverRuns(actions, u);
    var last := LastPersist(s.last, u);
    var now := if s.clock < last + INTERVAL then last + INTERVAL else s.clock;
    var a := AboveAll(s.pending.Keys);
    var b := a + 1;
    var looks := [Look(a, u, now), Look(b, u, now)];
    StepsOfTwo(s, Look(a, u, now), Look(b, u, now));
    ActRemembers(s, Look(a, u, now), u);
    ActRemembers(Act(s, Look(a, u, now)), Look(b, u, now), u);
    var both := Steps(s, looks);
    assert both.pending[a] == both.pending[b] == u && !Calm(both, u);
    var stamps := StampsTooSoon(both, u);
    more := looks + stamps;
    StepsConcat(s, looks, stamps);
  }

  /** Two sockets of one user that both look before either stamps get there. */
  lemma TwoSocketsOverlap(u: UserId, now: real)
    requires now >= INTERVAL
    ensures var s := Steps(START, [Look(0, u, now), Look(1, u, now)]);
            Spaced(s, u) && !Calm(s, u)
  {
    StepsOfTwo(START, Look(0, u, now), Look(1, u, now));
    var s := Steps(START, [Look(0, u, now), Look(1, u, now)]);
    assert s.pending[0] == s.pending[1] == u;
  }

  // ---- In seconds ----------------------------------------------------------------------------

  /** In every interleaving a look passes exactly when the user has no write, or the last is thirty
      seconds old. */
  lemma LookIff(actions: seq<Action>, u: UserId, now: real)
    requires Steps(START, actions).clock <= now
    ensures var s := Steps(START, actions);
            var writes := WritesOf(s.writes, u);
            Due(s.last, u, now) <==> writes == [] || now - writes[|writes| - 1] >= 30.0
  {
    RemembersOverRuns(actions, u);
  }

  /** Two successive writes of a user whose writes do not overlap are thirty seconds apart. */
  lemma WritesApart(actions: seq<Action>, u: UserId, i: nat)
    requires NeverOverlap(actions, u) && i + 1 < |WritesOf(Steps(START, actions).writes, u)|
    ensures var writes := WritesOf(Steps(START, actions).writes, u); writes[i + 1] - writes[i] >= 30.0
  {
    var s := Steps(START, actions);
    SpacedOverRuns(actions, u);
    RemembersOverRuns(actions, u);
    LimitApart(HALF_MINUTE, WritesOf(s.writes, u), 1, s.clock, i);
  }
}
