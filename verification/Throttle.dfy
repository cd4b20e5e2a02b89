/** A counter with an expiry that every count renews: Redis INCR followed by EXPIRE. It is checked
    against a limit before an attempt, counts the attempts that fail, and is deleted by a success. */
module Throttle {

  datatype Counter = Absent | Counter(count: nat, expires: real)

  /** What GET shows at `now`. */
  function Live(c: Counter, now: real): nat {
    if c.Counter? && now < c.expires then c.count else 0
  }

  function Bump(c: Counter, now: real, ttl: real): (r: Counter)
    ensures r.Counter? && r.count >= 1 && r.expires == now + ttl
  {
    Counter(Live(c, now) + 1, now + ttl)
  }

  /** An attempt, checked at one instant and decided at another; or a deletion from elsewhere. */
  datatype Event = Attempt(checked: real, decided: real, success: bool) | Clear

  datatype Verdict = Blocked | Succeeded | Counted | Cleared

  function Step(c: Counter, limit: nat, ttl: real, e: Event): (Counter, Verdict) {
    if e.Clear? then (Absent, Cleared)
    else if Live(c, e.checked) >= limit then (c, Blocked)
    else if e.success then (Absent, Succeeded)
    else (Bump(c, e.decided, ttl), Counted)
  }

  function Run(limit: nat, ttl: real, events: seq<Event>): Counter {
    if events == [] then Absent
    else Step(Run(limit, ttl, events[..|events| - 1]), limit, ttl, events[|events| - 1]).0
  }

  /** The instants of the counted failures since the last success or deletion. */
  function Streak(limit: nat, ttl: real, events: seq<Event>): seq<real> {
    if events == [] then []
    else
      var init, e := events[..|events| - 1], events[|events| - 1];
      match Step(Run(limit, ttl, init), limit, ttl, e).1
      case Blocked => Streak(limit, ttl, init)
      case Counted => Streak(limit, ttl, init) + [e.decided]
      case _ => []
  }

  /** How many of the last failures follow each other within the ttl. */
  function Tight(streak: seq<real>, ttl: real): nat {
    if |streak| <= 1 then |streak|
    else if streak[|streak| - 1] - streak[|streak| - 2] < ttl then Tight(streak[..|streak| - 1], ttl) + 1
    else 1
  }

  ghost predicate InTime(events: seq<Event>, now: real) {
    && (forall i :: 0 <= i < |events| && events[i].Attempt? ==> events[i].checked <= events[i].decided <= now)
    && (forall i, j :: 0 <= i < j < |events| && events[i].Attempt? && events[j].Attempt?
          ==> events[i].decided <= events[j].checked)
  }

  /** No streak so far has ever been tighter than the limit. */
  ghost predicate Bounded(streak: seq<real>, limit: nat, ttl: real) {
    forall n :: 0 <= n <= |streak| ==> Tight(streak[..n], ttl) <= limit
  }

  /** The counter and the streak belong together. */
  ghost predicate Caches(c: Counter, streak: seq<real>, limit: nat, ttl: real, now: real) {
    && (streak == [] ==> c == Absent)
    && (streak != [] ==> c == Counter(Tight(streak, ttl), streak[|streak| - 1] + ttl) && streak[|streak| - 1] <= now)
    && Bounded(streak, limit, ttl)
  }

  /** The counter is a cache of the history: its value is the number of tight failures, and it
      expires a ttl after the last of them. */
  lemma {:induction false} CounterIsTight(limit: nat, ttl: real, events: seq<Event>, now: real)
    requires limit >= 1 && ttl > 0.0 && InTime(events, now)
    ensures Caches(Run(limit, ttl, events), Streak(limit, ttl, events), limit, ttl, now)
  {
    if events == [] {
      assert Streak(limit, ttl, events) == [];
    } else {
      var init, e := events[..|events| - 1], events[|events| - 1];
      if e.Attempt? {
        CounterIsTight(limit, ttl, init, e.checked);
        StepKeepsTight(Run(limit, ttl, init), Streak(limit, ttl, init), limit, ttl, e);
      } else {
        assert Streak(limit, ttl, events) == [];
      }
    }
  }

  lemma StepKeepsTight(c: Counter, streak: seq<real>, limit: nat, ttl: real, e: Event)
    requires limit >= 1 && ttl > 0.0 && e.Attempt? && e.checked <= e.decided
    requires Caches(c, streak, limit, ttl, e.checked)
    ensures var (after, verdict) := Step(c, limit, ttl, e);
            && (verdict == Counted ==> Caches(after, streak + [e.decided], limit, ttl, e.decided))
            && (verdict == Succeeded ==> after == Absent)
            && (verdict == Blocked ==> after == c)
            && verdict != Cleared
  {
    TightSnoc(streak, e.decided, ttl);
    if Step(c, limit, ttl, e).1 == Counted {
      BoundedSnoc(streak, e.decided, limit, ttl);
    }
  }

  lemma TightSnoc(streak: seq<real>, t: real, ttl: real)
    ensures Tight(streak + [t], ttl)
            == if streak != [] && t - streak[|streak| - 1] < ttl then Tight(streak, ttl) + 1 else 1
  {
  }

  lemma BoundedSnoc(streak: seq<real>, t: real, limit: nat, ttl: real)
    requires Bounded(streak, limit, ttl) && Tight(streak + [t], ttl) <= limit
    ensures Bounded(streak + [t], limit, ttl)
  {
    forall n | 0 <= n <= |streak| + 1
      ensures Tight((streak + [t])[..n], ttl) <= limit
    {
      assert n <= |streak| ==> (streak + [t])[..n] == streak[..n];
      assert n == |streak| + 1 ==> (streak + [t])[..n] == streak + [t];
    }
  }

  lemma {:induction false} TightAtLeast(streak: seq<real>, from: nat, ttl: real)
    requires from < |streak|
    requires forall j :: from <= j < |streak| - 1 ==> streak[j + 1] - streak[j] < ttl
    ensures Tight(streak, ttl) >= |streak| - from
  {
    if from < |streak| - 1 {
      TightAtLeast(streak[..|streak| - 1], from, ttl);
    }
  }

  /** Among any limit + 1 successive failures without a success between them, two neighbours are at
      least the ttl apart. */
  lemma FailuresKeepTheirDistance(limit: nat, ttl: real, events: seq<Event>, now: real, i: nat)
    requires limit >= 1 && ttl > 0.0 && InTime(events, now)
    requires i + limit < |Streak(limit, ttl, events)|
    ensures var streak := Streak(limit, ttl, events);
            exists j :: i <= j < i + limit && streak[j + 1] - streak[j] >= ttl
  {
    var streak := Streak(limit, ttl, events);
    CounterIsTight(limit, ttl, events, now);
    if forall j :: i <= j < i + limit ==> streak[j + 1] - streak[j] < ttl {
      var part := streak[..i + limit + 1];
      TightAtLeast(part, i, ttl);
      assert false;
    }
  }

  /** The last n instants each came within the ttl of the one before. */
  ghost predicate Close(streak: seq<real>, n: nat, ttl: real) {
    forall j | 0 <= j && |streak| - n <= j < |streak| - 1 :: streak[j + 1] - streak[j] < ttl
  }

  lemma {:induction false} TightIff(streak: seq<real>, ttl: real, n: nat)
    requires n >= 1
    ensures Tight(streak, ttl) >= n
            <==> |streak| >= n && Close(streak, n, ttl)
  {
    if |streak| > 1 && n > 1 {
      var init := streak[..|streak| - 1];
      TightIff(init, ttl, n - 1);
      assert forall j :: 0 <= j < |init| ==> init[j] == streak[j];
    }
  }

  /** The last n instants, one at least, each came within the ttl of the one before, and now does of the
      last. */
  ghost predicate Crowded(streak: seq<real>, n: nat, ttl: real, now: real) {
    1 <= n <= |streak| && now - streak[|streak| - 1] < ttl && Close(streak, n, ttl)
  }

  /** An attempt is blocked exactly when the last `limit` failures crowd it. */
  lemma BlockedIff(limit: nat, ttl: real, events: seq<Event>, e: Event)
    requires limit >= 1 && ttl > 0.0 && e.Attempt? && InTime(events, e.checked)
    ensures Step(Run(limit, ttl, events), limit, ttl, e).1 == Blocked
            <==> Crowded(Streak(limit, ttl, events), limit, ttl, e.checked)
  {
    CounterIsTight(limit, ttl, events, e.checked);
    TightIff(Streak(limit, ttl, events), ttl, limit);
  }
}
