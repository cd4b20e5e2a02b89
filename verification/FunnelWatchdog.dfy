/** The funnel watchdog: probes the public edge and restarts the tunnel daemon, at most twice a run
    and within a budget of restarts an hour that survives runs in a pruned log file. */
module FunnelWatchdog {
  import opened Seqs
  import opened Windows

  const HOUR := Window(3600.0, true)

  datatype Exit = Healthy | GaveUp | ApiDown

  /** What one run meets: the probes' answers and the clock at each prune and at each restart. */
  datatype Visit = Visit(
    apiUp: bool, forced: bool, edgeUp: bool,
    pruned1: real, restarted1: real, edgeUp1: bool,
    pruned2: real, restarted2: real, edgeUp2: bool)

  /** The forced test mode makes every edge probe fail. */
  predicate EdgeAnswers(v: Visit, answer: bool) {
    answer && !v.forced
  }

  ghost predicate Clocked(v: Visit, from: real) {
    from <= v.pruned1 <= v.restarted1 <= v.pruned2 <= v.restarted2
  }

  /** Whether the hour's budget allows a restart, by the full history of restarts. */
  predicate Allowed(restarts: seq<real>, max: nat, now: real) {
    |Recent(HOUR, restarts, now)| < max
  }

  /** One run on the full history of restarts. */
  function Run(restarts: seq<real>, max: nat, v: Visit): (seq<real>, Exit) {
    if !v.apiUp then (restarts, ApiDown)
    else if EdgeAnswers(v, v.edgeUp) then (restarts, Healthy)
    else if !Allowed(restarts, max, v.pruned1) then (restarts, GaveUp)
    else
      var once := restarts + [v.restarted1];
      if EdgeAnswers(v, v.edgeUp1) then (once, Healthy)
      else if !Allowed(once, max, v.pruned2) then (once, GaveUp)
      else
        var twice := once + [v.restarted2];
        (twice, if EdgeAnswers(v, v.edgeUp2) then Healthy else GaveUp)
  }

  class Watchdog {
    const maxRestarts: nat
    /** The lines of restarts.log. */
    var log: seq<real>
    /** Every restart ever made, and the clock of the last one or of the last prune. */
    ghost var restarts: seq<real>
    ghost var clock: real

    ghost predicate Valid()
      reads this
    {
      Recent(HOUR, log, clock) == Recent(HOUR, restarts, clock)
    }

    constructor (maxRestarts: nat)
      ensures Valid() && restarts == [] && this.maxRestarts == maxRestarts
    {
      this.maxRestarts := maxRestarts;
      log, restarts, clock := [], [], 0.0;
    }

    /** Prunes the log and counts what is left. */
    method RecentRestarts(now: real) returns (count: nat)
      requires Valid() && clock <= now
      modifies `log, `clock
      ensures Valid() && clock == now
      ensures count == |Recent(HOUR, restarts, now)|
    {
      PruneAgain(HOUR, log, clock, now);
      PruneAgain(HOUR, restarts, clock, now);
      log := Filter(Counting(HOUR, now), log);
      PruneAgain(HOUR, restarts, now, now);
      PruneAgain(HOUR, log, now, now);
      FilterAll(Counting(HOUR, now), log);
      count := |log|;
      clock := now;
    }

    /** One restart if the budget allows it. */
    method Heal(pruned: real, restarted: real) returns (done: bool)
      requires Valid() && clock <= pruned <= restarted
      modifies this
      ensures Valid() && clock <= restarted
      ensures done <==> Allowed(old(restarts), maxRestarts, pruned)
      ensures restarts == if done then old(restarts) + [restarted] else old(restarts)
    {
      var n := RecentRestarts(pruned);
      if n >= maxRestarts {
        return false;
      }
      PruneAgain(HOUR, log, clock, restarted);
      PruneAgain(HOUR, restarts, clock, restarted);
      RecentSnoc(HOUR, log, restarted);
      RecentSnoc(HOUR, restarts, restarted);
      log := log + [restarted];
      restarts := restarts + [restarted];
      clock := restarted;
      return true;
    }

    method RunOnce(v: Visit) returns (exit: Exit)
      requires Valid() && Clocked(v, clock)
      modifies this
      ensures Valid() && clock <= v.restarted2
      ensures (restarts, exit) == Run(old(restarts), maxRestarts, v)
    {
      if !v.apiUp {
        return ApiDown;
      }
      if !v.forced && v.edgeUp {
        return Healthy;
      }
      var done := Heal(v.pruned1, v.restarted1);
      if !done {
        return GaveUp;
      }
      if !v.forced && v.edgeUp1 {
        return Healthy;
      }
      done := Heal(v.pruned2, v.restarted2);
      if !done {
        return GaveUp;
      }
      if !v.forced && v.edgeUp2 {
        return Healthy;
      }
      return GaveUp;
    }
  }

  // ---- Over all runs -------------------------------------------------------------------------

  function Restarts(max: nat, visits: seq<Visit>): seq<real> {
    if visits == [] then [] else Run(Restarts(max, visits[..|visits| - 1]), max, visits[|visits| - 1]).0
  }

  ghost predicate AllClocked(visits: seq<Visit>, from: real) {
    && (forall i :: 0 <= i < |visits| ==> Clocked(visits[i], from))
    && (forall i, j :: 0 <= i < j < |visits| ==> visits[i].restarted2 <= visits[j].pruned1)
  }

  lemma RestartKeeps(restarts: seq<real>, max: nat, pruned: real, restarted: real)
    requires Ordered(restarts, pruned) && pruned <= restarted
    requires Admissible(HOUR, restarts, max) && Allowed(restarts, max, pruned)
    ensures Ordered(restarts + [restarted], restarted) && Admissible(HOUR, restarts + [restarted], max)
  {
    PruneAgain(HOUR, restarts, pruned, restarted);
    AdmissibleSnoc(HOUR, restarts, restarted, max);
  }

  lemma RunKeeps(restarts: seq<real>, max: nat, v: Visit, from: real)
    requires Clocked(v, from) && Ordered(restarts, from) && Admissible(HOUR, restarts, max)
    ensures var after := Run(restarts, max, v).0;
            && Ordered(after, v.restarted2) && Admissible(HOUR, after, max)
            && restarts <= after && |after| <= |restarts| + 2
  {
    if v.apiUp && !EdgeAnswers(v, v.edgeUp) && Allowed(restarts, max, v.pruned1) {
      RestartKeeps(restarts, max, v.pruned1, v.restarted1);
      var once := restarts + [v.restarted1];
      if !EdgeAnswers(v, v.edgeUp1) && Allowed(once, max, v.pruned2) {
        RestartKeeps(once, max, v.pruned2, v.restarted2);
      }
    }
  }

  lemma {:induction false} RunsKeep(max: nat, visits: seq<Visit>, from: real, now: real)
    requires AllClocked(visits, from)
    requires from <= now && (visits != [] ==> visits[|visits| - 1].restarted2 <= now)
    ensures Ordered(Restarts(max, visits), now) && Admissible(HOUR, Restarts(max, visits), max)
  {
    if visits != [] {
      var init, v := visits[..|visits| - 1], visits[|visits| - 1];
      RunsKeep(max, init, from, v.pruned1);
      RunKeeps(Restarts(max, init), max, v, v.pruned1);
    }
  }

  /** Over all runs, every window of 3600 seconds, both ends included, holds at most the budget,
      though the log is pruned at each attempt. */
  lemma BudgetOverRuns(max: nat, visits: seq<Visit>, from: real, start: real)
    requires AllClocked(visits, from)
    ensures |Inside(HOUR, Restarts(max, visits), start)| <= max
  {
    var now := if visits == [] then from else visits[|visits| - 1].restarted2;
    assert visits != [] ==> Clocked(visits[|visits| - 1], from);
    RunsKeep(max, visits, from, now);
    NoWindowOverfull(HOUR, Restarts(max, visits), max, now, start);
  }

  // ---- In probes and seconds -----------------------------------------------------------------

  /** A run restarts exactly when the API is up, the edge does not answer or is made not to, and fewer
      than the budget were made in the hour; a second time only when the edge still does not answer. */
  lemma RunLaw(restarts: seq<real>, max: nat, v: Visit)
    ensures var (after, exit) := Run(restarts, max, v);
            var once := restarts + [v.restarted1];
            var first := v.apiUp && (v.forced || !v.edgeUp)
                         && |Filter((t: real) => v.pruned1 - t <= 3600.0, restarts)| < max;
            var second := first && (v.forced || !v.edgeUp1)
                          && |Filter((t: real) => v.pruned2 - t <= 3600.0, once)| < max;
            && after == (if second then once + [v.restarted2] else if first then once else restarts)
            && (exit == ApiDown <==> !v.apiUp)
            && (exit == Healthy <==>
                  v.apiUp && !v.forced && (v.edgeUp || (first && v.edgeUp1) || (second && v.edgeUp2)))
  {
    FilterSame(Counting(HOUR, v.pruned1), (t: real) => v.pruned1 - t <= 3600.0, restarts);
    FilterSame(Counting(HOUR, v.pruned2), (t: real) => v.pruned2 - t <= 3600.0, restarts + [v.restarted1]);
  }

  /** Over all runs, of one more restart than the budget the first and the last are more than an hour
      apart. */
  lemma BudgetApart(max: nat, visits: seq<Visit>, from: real, i: nat)
    requires AllClocked(visits, from) && max >= 1 && i + max < |Restarts(max, visits)|
    ensures Restarts(max, visits)[i + max] - Restarts(max, visits)[i] > 3600.0
  {
    var now := if visits == [] then from else visits[|visits| - 1].restarted2;
    assert visits != [] ==> Clocked(visits[|visits| - 1], from);
    RunsKeep(max, visits, from, now);
    LimitApart(HOUR, Restarts(max, visits), max, now, i);
  }
}
