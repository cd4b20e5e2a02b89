/** The API alert watchdog: one alert when the API goes down, reminders while it stays down, one
    notice when it is back. Two small files persist between runs. */
module Alerts {

  const REALERT_EVERY := 5

  /** What one run sees: the service manager, the health route, and the startup grace. */
  datatype Probe = Probe(active: bool, healthy: bool, grace: bool)

  datatype Health = Fine | Failing | Starting

  /** An inactive service fails whatever else is true; the grace only excuses an active one. */
  function Diagnose(p: Probe): Health {
    if !p.active then Failing
    else if p.healthy then Fine
    else if p.grace then Starting
    else Failing
  }

  datatype Alert = Silence | Down | StillDown(minutes: int) | Recovered

  class AlertState {
    var state: string
    var failCount: int

    /** The state files are absent at first and read as ok and 0. */
    constructor ()
      ensures state == "ok" && failCount == 0
    {
      state, failCount := "ok", 0;
    }

    method RunOnce(p: Probe) returns (alert: Alert)
      modifies this
      ensures (Files(state, failCount), alert) == Step(old(Files(state, failCount)), Diagnose(p))
    {
      alert := Silence;
      if p.active && !p.healthy && p.grace {
        return;
      }
      if p.active && p.healthy {
        if state == "failing" {
          alert := Recovered;
        }
        state := "ok";
        failCount := 0;
        return;
      }
      if state != "failing" {
        state := "failing";
        failCount := 1;
        alert := Down;
      } else {
        var n := failCount + 1;
        failCount := n;
        if n % REALERT_EVERY == 0 {
          alert := StillDown(n * 2);
        }
      }
    }
  }

  datatype Files = Files(state: string, failCount: int)

  function Step(f: Files, h: Health): (Files, Alert) {
    match h
    case Starting => (f, Silence)
    case Fine => (Files("ok", 0), if f.state == "failing" then Recovered else Silence)
    case Failing =>
      if f.state != "failing" then (Files("failing", 1), Down)
      else
        (Files("failing", f.failCount + 1),
         if (f.failCount + 1) % REALERT_EVERY == 0 then StillDown((f.failCount + 1) * 2) else Silence)
  }

  function Run(results: seq<Health>): Files {
    if results == [] then Files("ok", 0) else Step(Run(results[..|results| - 1]), results[|results| - 1]).0
  }

  function AlertsOf(results: seq<Health>): seq<Alert> {
    if results == [] then []
    else AlertsOf(results[..|results| - 1]) + [Step(Run(results[..|results| - 1]), results[|results| - 1]).1]
  }

  // ---- What the persisted files stand for ----------------------------------------------------

  /** How long the failing episode at the end of the history is, startup runs ignored. */
  function Episode(results: seq<Health>): nat {
    if results == [] then 0
    else
      match results[|results| - 1]
      case Fine => 0
      case Starting => Episode(results[..|results| - 1])
      case Failing => Episode(results[..|results| - 1]) + 1
  }

  lemma {:induction false} FilesAreEpisode(results: seq<Health>)
    ensures Run(results) == if Episode(results) == 0 then Files("ok", 0) else Files("failing", Episode(results))
  {
    if results != [] {
      FilesAreEpisode(results[..|results| - 1]);
    }
  }

  /** So each run's alert is a matter of the health history alone: DOWN on the first failure of an
      episode, a reminder on every fifth, RECOVERED on the healthy run that ends one. */
  lemma AlertByHistory(results: seq<Health>, h: Health)
    ensures Step(Run(results), h).1 ==
            var length := Episode(results);
            match h
            case Starting => Silence
            case Fine => if length > 0 then Recovered else Silence
            case Failing =>
              if length == 0 then Down
              else if (length + 1) % 5 == 0 then StillDown(2 * (length + 1)) else Silence
  {
    FilesAreEpisode(results);
  }

  /** The alert by what was probed: a service that is not active fails whatever else is seen; the grace
      covers only one that is active and not healthy. */
  lemma AlertByProbe(results: seq<Health>, p: Probe)
    ensures var length, alert := Episode(results), Step(Run(results), Diagnose(p)).1;
            && (p.active && p.healthy ==> alert == if length > 0 then Recovered else Silence)
            && (p.active && !p.healthy && p.grace ==> alert == Silence)
            && (!p.active || (!p.healthy && !p.grace) ==>
                  && (alert == Down <==> length == 0)
                  && (length > 0 ==> alert == if length % 5 == 4 then StillDown(2 * length + 2) else Silence))
  {
    AlertByHistory(results, Diagnose(p));
  }

  // ---- Alerts by episode ---------------------------------------------------------------------

  /** The lengths of the failing episodes, startup runs ignored, each with whether it has ended. */
  datatype Outage = Outage(length: nat, ended: bool)

  /** The last outage replaced. */
  function Replaced(outages: seq<Outage>, o: Outage): seq<Outage>
    requires outages != []
  {
    outages[..|outages| - 1] + [o]
  }

  /** What one more result does to the outages. */
  function NextOutages(before: seq<Outage>, h: Health): seq<Outage> {
    var open := before != [] && !before[|before| - 1].ended;
    match h
    case Starting => before
    case Fine => if open then Replaced(before, before[|before| - 1].(ended := true)) else before
    case Failing =>
      if open then Replaced(before, Outage(before[|before| - 1].length + 1, false)) else before + [Outage(1, false)]
  }

  function Outages(results: seq<Health>): seq<Outage> {
    if results == [] then []
    else NextOutages(Outages(results[..|results| - 1]), results[|results| - 1])
  }

  function Reminders(outages: seq<Outage>): nat {
    if outages == [] then 0 else Reminders(outages[..|outages| - 1]) + outages[|outages| - 1].length / 5
  }

  function Ended(outages: seq<Outage>): nat {
    if outages == [] then 0
    else Ended(outages[..|outages| - 1]) + if outages[|outages| - 1].ended then 1 else 0
  }

  datatype Tally = Tally(down: nat, still: nat, recovered: nat)

  function Bump(t: Tally, alert: Alert): Tally {
    match alert
    case Silence => t
    case Down => t.(down := t.down + 1)
    case StillDown(_) => t.(still := t.still + 1)
    case Recovered => t.(recovered := t.recovered + 1)
  }

  function Count(alerts: seq<Alert>): Tally {
    if alerts == [] then Tally(0, 0, 0) else Bump(Count(alerts[..|alerts| - 1]), alerts[|alerts| - 1])
  }

  /** What the outages call for. */
  function Due(outages: seq<Outage>): Tally {
    Tally(|outages|, Reminders(outages), Ended(outages))
  }

  /** Only the last outage can be open, and it is as long as the history's last episode. */
  lemma {:induction false} OutagesMatchEpisode(results: seq<Health>)
    ensures var outages := Outages(results);
            && (forall i :: 0 <= i < |outages| ==> outages[i].length > 0 && (!outages[i].ended ==> i == |outages| - 1))
            && Episode(results)
               == if outages != [] && !outages[|outages| - 1].ended then outages[|outages| - 1].length else 0
  {
    if results != [] {
      OutagesMatchEpisode(results[..|results| - 1]);
    }
  }

  /** Over any run: one DOWN an episode, floor(L / 5) reminders for an episode of length L, and one
      RECOVERED for each episode that a healthy run has ended. */
  lemma {:induction false} AlertsByEpisode(results: seq<Health>)
    ensures Count(AlertsOf(results)) == Due(Outages(results))
  {
    if results != [] {
      var init, h := results[..|results| - 1], results[|results| - 1];
      AlertsByEpisode(init);
      OutagesMatchEpisode(init);
      OneRunDue(Outages(init), Episode(init), h);
      AlertByHistory(init, h);
      var alerts, alert := AlertsOf(init), Step(Run(init), h).1;
      assert (alerts + [alert])[..|alerts|] == alerts;
    }
  }

  lemma OneRunDue(before: seq<Outage>, length: nat, h: Health)
    requires length == if before != [] && !before[|before| - 1].ended then before[|before| - 1].length else 0
    requires before != [] ==> before[|before| - 1].length > 0
    ensures Due(NextOutages(before, h)) ==
            Bump(Due(before),
                 match h
                 case Starting => Silence
                 case Fine => if length > 0 then Recovered else Silence
                 case Failing =>
                   if length == 0 then Down
                   else if (length + 1) % 5 == 0 then StillDown(2 * (length + 1)) else Silence)
  {
  }
}
