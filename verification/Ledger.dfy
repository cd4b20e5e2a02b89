/** The admin payout ledger: a dictionary of entries, one a provider, built in one pass over the
    priced jobs and sorted by the amount pending. */
module Ledger {
  import opened Records
  import opened Seqs
  import Jobs

  datatype Row = Row(id: JobId, job: Job)

  datatype Entry = Entry(total: int, completed: int, pending: int, pendingAmount: real, earned: real)

  const ZERO := Entry(0, 0, 0, 0.0, 0.0)

  datatype Line = Line(provider: Provider, entry: Entry)

  const ByPending: Line -> real := (l: Line) => l.entry.pendingAmount

  /** The jobs on the ledger: assigned to somebody, with a service amount. */
  const Priced: Row -> bool := (r: Row) => Jobs.BilledProvider(r.job).Some? && r.job.pricing.service.Some?

  /** The jobs with a captured payment. */
  function PaidJobs(payments: seq<Payment>): set<JobId> {
    set p | p in payments && p.status == Captured :: p.job
  }

  predicate Settled(paid: set<JobId>, r: Row) {
    r.job.status == Completed || r.id in paid
  }

  function Amount(r: Row): real {
    if r.job.pricing.service.Some? then r.job.pricing.service.value else 0.0
  }

  function Plus(a: Entry, b: Entry): Entry {
    Entry(a.total + b.total, a.completed + b.completed, a.pending + b.pending,
          a.pendingAmount + b.pendingAmount, a.earned + b.earned)
  }

  /** What one job adds to its entry. */
  function RowEntry(paid: set<JobId>, r: Row): Entry {
    if Settled(paid, r) then Entry(1, 1, 0, Amount(r), Amount(r)) else Entry(1, 0, 1, 0.0, 0.0)
  }

  /** The entry of the rows selected. */
  function EntryOf(rows: seq<Row>, paid: set<JobId>, keep: Row -> bool): Entry {
    if rows == [] then ZERO
    else
      var rest, last := EntryOf(rows[..|rows| - 1], paid, keep), rows[|rows| - 1];
      if keep(last) then Plus(rest, RowEntry(paid, last)) else rest
  }

  /** The mechanic's jobs, or the garage's that have no mechanic. */
  function Of(p: Provider): Row -> bool {
    (r: Row) => Jobs.BilledProvider(r.job) == Some(p)
  }

  const Everyone: Row -> bool := (r: Row) => true

  function EntryFor(rows: seq<Row>, paid: set<JobId>, p: Provider): Entry {
    EntryOf(rows, paid, Of(p))
  }

  function Entries(rows: seq<Row>, paid: set<JobId>): Provider -> Entry {
    (p: Provider) => EntryFor(rows, paid, p)
  }

  /** One line a provider. */
  function Lines(entry: Provider -> Entry, providers: seq<Provider>): seq<Line> {
    Map(p => Line(p, entry(p)), providers)
  }

  ghost predicate Covers(rows: seq<Row>, providers: seq<Provider>) {
    forall i :: 0 <= i < |rows| ==>
      Jobs.BilledProvider(rows[i].job).Some? && Jobs.BilledProvider(rows[i].job).value in providers
  }

  /** A dictionary with its keys in the order they came in. */
  datatype Dict = Dict(entries: map<Provider, Entry>, order: seq<Provider>)

  /** `setdefault` and the updates of one round. */
  function Enter(d: Dict, paid: set<JobId>, r: Row): Dict {
    var key := Jobs.BilledProvider(r.job);
    if key.None? then d
    else if key.value in d.entries
    then d.(entries := d.entries[key.value := Plus(d.entries[key.value], RowEntry(paid, r))])
    else Dict(d.entries[key.value := RowEntry(paid, r)], d.order + [key.value])
  }

  function Entered(rows: seq<Row>, paid: set<JobId>): Dict {
    if rows == [] then Dict(map[], []) else Enter(Entered(rows[..|rows| - 1], paid), paid, rows[|rows| - 1])
  }

  /** One pass over the rows. */
  method BuildLedger(rows: seq<Row>, paid: set<JobId>) returns (ledger: map<Provider, Entry>, order: seq<Provider>)
    ensures Dict(ledger, order) == Entered(rows, paid)
  {
    ledger, order := map[], [];
    for i := 0 to |rows|
      invariant Dict(ledger, order) == Entered(rows[..i], paid)
    {
      var j := rows[i];
      assert rows[..i + 1][..i] == rows[..i];
      var key := Jobs.BilledProvider(j.job);
      if key.None? {
        continue;
      }
      if key.value !in ledger {
        ledger := ledger[key.value := ZERO];
        order := order + [key.value];
      }
      var entry := ledger[key.value];
      entry := entry.(total := entry.total + 1);
      if j.job.status == Completed || j.id in paid {
        entry := entry.(completed := entry.completed + 1, earned := entry.earned + Amount(j),
                        pendingAmount := entry.pendingAmount + Amount(j));
      } else {
        entry := entry.(pending := entry.pending + 1);
      }
      ledger := ledger[key.value := entry];
    }
    assert rows[..|rows|] == rows;
  }

  ghost predicate Serves(rows: seq<Row>, p: Provider) {
    exists i :: 0 <= i < |rows| && Of(p)(rows[i])
  }

  /** The dictionary holds, once each, the providers of the rows, with the entries of their rows. */
  lemma {:induction false} DictIsGroupBy(rows: seq<Row>, paid: set<JobId>)
    ensures var d := Entered(rows, paid);
            && Distinct(d.order)
            && (forall p :: p in d.order <==> p in d.entries)
            && (forall p :: p in d.entries ==> d.entries[p] == EntryFor(rows, paid, p))
            && (forall p :: p in d.entries <==> Serves(rows, p))
  {
    if rows != [] {
      var init, last := rows[..|rows| - 1], rows[|rows| - 1];
      DictIsGroupBy(init, paid);
      var key := Jobs.BilledProvider(last.job);
      forall p
        ensures p in Entered(rows, paid).entries <==> Serves(rows, p)
      {
        ProvidersSnoc(rows, p);
      }
      if key.Some? && key.value !in Entered(init, paid).entries {
        NobodyYet(init, paid, key.value);
      }
    }
  }

  lemma ProvidersSnoc(rows: seq<Row>, p: Provider)
    requires rows != []
    ensures Serves(rows, p) <==> Of(p)(rows[|rows| - 1]) || Serves(rows[..|rows| - 1], p)
  {
  }

  lemma {:induction false} NobodyYet(rows: seq<Row>, paid: set<JobId>, p: Provider)
    requires forall k :: 0 <= k < |rows| ==> !Of(p)(rows[k])
    ensures EntryFor(rows, paid, p) == ZERO
  {
    if rows != [] {
      NobodyYet(rows[..|rows| - 1], paid, p);
    }
  }

  /** The ledger of the given jobs and payments: the dictionary's values, sorted. */
  function Payouts(jobs: seq<Row>, payments: seq<Payment>): seq<Line> {
    var d := Entered(Filter(Priced, jobs), PaidJobs(payments));
    SortDescending(ByPending, Values(d, d.order))
  }

  function Values(d: Dict, order: seq<Provider>): seq<Line> {
    Map(p => Line(p, if p in d.entries then d.entries[p] else ZERO), order)
  }

  method MechanicPayoutLedger(jobs: seq<Row>, payments: seq<Payment>) returns (payouts: seq<Line>)
    ensures payouts == Payouts(jobs, payments)
  {
    var rows := Filter(Priced, jobs);
    if rows == [] {
      assert Values(Dict(map[], []), []) == [];
      return [];
    }
    var ledger, order := BuildLedger(rows, PaidJobs(payments));
    payouts := SortDescending(ByPending, Values(Dict(ledger, order), order));
  }

  // ---- What an entry says --------------------------------------------------------------------

  function Among(keep: Row -> bool, paid: set<JobId>, settled: bool): Row -> bool {
    (r: Row) => keep(r) && Settled(paid, r) == settled
  }

  /** An entry is the group-by of its rows: how many there are, how many of them are settled and
      unsettled, and what the settled ones are worth. */
  lemma {:induction false} EntryIsGroupBy(rows: seq<Row>, paid: set<JobId>, keep: Row -> bool)
    ensures var e := EntryOf(rows, paid, keep);
            var settled := Filter(Among(keep, paid, true), rows);
            && e.total == |Filter(keep, rows)| == e.completed + e.pending
            && e.completed == |settled|
            && e.pending == |Filter(Among(keep, paid, false), rows)|
            && e.earned == e.pendingAmount == Sum(Map(Amount, settled))
  {
    if rows != [] {
      var init, last := rows[..|rows| - 1], rows[|rows| - 1];
      EntryIsGroupBy(init, paid, keep);
      if keep(last) && Settled(paid, last) {
        var settled := Filter(Among(keep, paid, true), init);
        assert Map(Amount, settled + [last]) == Map(Amount, settled) + [Amount(last)];
        assert (Map(Amount, settled) + [Amount(last)])[..|settled|] == Map(Amount, settled);
      }
    }
  }

  // ---- Conservation --------------------------------------------------------------------------

  function SumLines(lines: seq<Line>): Entry {
    if lines == [] then ZERO else Plus(SumLines(lines[..|lines| - 1]), lines[|lines| - 1].entry)
  }

  /** The sum of the entries of the providers. */
  function SumOver(entry: Provider -> Entry, providers: seq<Provider>): Entry {
    if providers == [] then ZERO
    else Plus(SumOver(entry, providers[..|providers| - 1]), entry(providers[|providers| - 1]))
  }

  lemma {:induction false} SumOverLines(entry: Provider -> Entry, providers: seq<Provider>)
    ensures SumLines(Lines(entry, providers)) == SumOver(entry, providers)
  {
    if providers != [] {
      var init := providers[..|providers| - 1];
      SumOverLines(entry, init);
      assert Lines(entry, providers)[..|init|] == Lines(entry, init);
    }
  }

  lemma {:induction false} SameEntries(a: Provider -> Entry, b: Provider -> Entry, providers: seq<Provider>)
    requires forall i :: 0 <= i < |providers| ==> a(providers[i]) == b(providers[i])
    ensures SumOver(a, providers) == SumOver(b, providers)
  {
    if providers != [] {
      SameEntries(a, b, providers[..|providers| - 1]);
    }
  }

  /** More in one provider's entry is as much more in the sum, once. */
  lemma {:induction false} OneMore(
      before: Provider -> Entry, after: Provider -> Entry, p: Provider, more: Entry, providers: seq<Provider>)
    requires Distinct(providers) && p in providers
    requires after(p) == Plus(before(p), more)
    requires forall i :: 0 <= i < |providers| && providers[i] != p ==> after(providers[i]) == before(providers[i])
    ensures SumOver(after, providers) == Plus(SumOver(before, providers), more)
  {
    var front, q := providers[..|providers| - 1], providers[|providers| - 1];
    if q == p {
      SameEntries(before, after, front);
    } else {
      assert providers == front + [q];
      OneMore(before, after, p, more, front);
    }
  }

  lemma {:induction false} EntriesAddUp(rows: seq<Row>, paid: set<JobId>, providers: seq<Provider>)
    requires Distinct(providers) && Covers(rows, providers)
    ensures SumOver(Entries(rows, paid), providers) == EntryOf(rows, paid, Everyone)
  {
    if rows == [] {
      NothingIn(Entries(rows, paid), providers);
    } else {
      var init, last := rows[..|rows| - 1], rows[|rows| - 1];
      EntriesAddUp(init, paid, providers);
      OneMore(Entries(init, paid), Entries(rows, paid), Jobs.BilledProvider(last.job).value, RowEntry(paid, last), providers);
    }
  }

  lemma {:induction false} NothingIn(entry: Provider -> Entry, providers: seq<Provider>)
    requires forall p :: entry(p) == ZERO
    ensures SumOver(entry, providers) == ZERO
  {
    if providers != [] {
      NothingIn(entry, providers[..|providers| - 1]);
    }
  }

  function Without(lines: seq<Line>, i: nat): seq<Line>
    requires i < |lines|
  {
    lines[..i] + lines[i + 1..]
  }

  lemma WithoutSnoc(front: seq<Line>, last: Line, i: nat)
    requires i <= |front|
    ensures Without(front + [last], i) == if i == |front| then front else Without(front, i) + [last]
  {
  }

  lemma SumLinesSnoc(front: seq<Line>, last: Line)
    ensures SumLines(front + [last]) == Plus(SumLines(front), last.entry)
  {
  }

  lemma {:induction false} SumLinesRemove(lines: seq<Line>, i: nat)
    requires i < |lines|
    ensures SumLines(lines) == Plus(SumLines(Without(lines, i)), lines[i].entry)
  {
    var front, last := lines[..|lines| - 1], lines[|lines| - 1];
    assert lines == front + [last];
    WithoutSnoc(front, last, i);
    SumLinesSnoc(front, last);
    if i < |front| {
      SumLinesRemove(front, i);
      SumLinesSnoc(Without(front, i), last);
    }
  }

  lemma {:induction false} SumLinesPermutation(a: seq<Line>, b: seq<Line>)
    requires multiset(a) == multiset(b)
    ensures SumLines(a) == SumLines(b)
    decreases |a|
  {
    if a == [] {
      assert |multiset(b)| == 0;
      assert b == [];
    } else {
      assert a[0] in multiset(b);
      var i :| 0 <= i < |b| && b[i] == a[0];
      RemoveBoth(a, b, i);
      SumLinesPermutation(a[1..], b[..i] + b[i + 1..]);
      SumLinesRemove(a, 0);
      assert Without(a, 0) == a[1..];
      SumLinesRemove(b, i);
    }
  }

  /** The ledger lists each provider of a priced job once with the group-by of its jobs, descending
      by amount pending, and loses nothing: it counts every priced job once, and the earned sums add
      up to the service amounts of the settled ones. */
  lemma LedgerConserves(jobs: seq<Row>, payments: seq<Payment>)
    ensures var rows, paid, payouts := Filter(Priced, jobs), PaidJobs(payments), Payouts(jobs, payments);
            && Descending(ByPending, payouts)
            && multiset(payouts) == multiset(Lines(Entries(rows, paid), Entered(rows, paid).order))
            && Distinct(Entered(rows, paid).order) && Covers(rows, Entered(rows, paid).order)
            && SumLines(payouts).total == |rows| == SumLines(payouts).completed + SumLines(payouts).pending
            && SumLines(payouts).earned == Sum(Map(Amount, Filter(Among(Everyone, paid, true), rows)))
  {
    var rows, paid := Filter(Priced, jobs), PaidJobs(payments);
    var d := Entered(rows, paid);
    DictIsGroupBy(rows, paid);
    assert Values(d, d.order) == Lines(Entries(rows, paid), d.order);
    PricedCovered(jobs, d);
    SortSorts(ByPending, Lines(Entries(rows, paid), d.order));
    SumLinesPermutation(Lines(Entries(rows, paid), d.order), Payouts(jobs, payments));
    SumOverLines(Entries(rows, paid), d.order);
    EntriesAddUp(rows, paid, d.order);
    EntryIsGroupBy(rows, paid, Everyone);
    FilterAll(Everyone, rows);
  }

  // ---- Providers without a completed job -----------------------------------------------------

  ghost predicate ServesSettled(rows: seq<Row>, paid: set<JobId>, p: Provider) {
    exists k :: 0 <= k < |rows| && Among(Of(p), paid, true)(rows[k])
  }

  lemma CompletedIff(rows: seq<Row>, paid: set<JobId>, p: Provider)
    ensures EntryFor(rows, paid, p).completed > 0 <==> ServesSettled(rows, paid, p)
  {
    var settled := Filter(Among(Of(p), paid, true), rows);
    EntryIsGroupBy(rows, paid, Of(p));
    if settled != [] {
      assert settled[0] in settled;
      var k :| 0 <= k < |rows| && rows[k] == settled[0];
    }
    if k :| 0 <= k < |rows| && Among(Of(p), paid, true)(rows[k]) {
      assert rows[k] in settled;
    }
  }

  /** The lines are the providers of the priced jobs, each with the group-by of its jobs. */
  lemma PayoutsListed(jobs: seq<Row>, payments: seq<Payment>, l: Line)
    ensures var rows, paid := Filter(Priced, jobs), PaidJobs(payments);
            l in Payouts(jobs, payments) <==> Serves(rows, l.provider) && l.entry == EntryFor(rows, paid, l.provider)
  {
    var rows, paid := Filter(Priced, jobs), PaidJobs(payments);
    var d := Entered(rows, paid);
    var lines := Lines(Entries(rows, paid), d.order);
    DictIsGroupBy(rows, paid);
    assert Values(d, d.order) == lines;
    SortSorts(ByPending, lines);
    assert l in Payouts(jobs, payments) <==> l in multiset(lines);
    if l.provider in d.order {
      var i :| 0 <= i < |d.order| && d.order[i] == l.provider;
      assert lines[i] == Line(l.provider, EntryFor(rows, paid, l.provider));
    }
  }

  ghost predicate AllCompleted(lines: seq<Line>) {
    forall l | l in lines :: l.entry.completed > 0
  }

  /** Every provider of the rows has one that is settled. */
  ghost predicate EachSettled(rows: seq<Row>, paid: set<JobId>) {
    forall p | Serves(rows, p) :: ServesSettled(rows, paid, p)
  }

  /** Every provider listed has a completed job if and only if every provider of a priced job has one
      that is settled: completed or paid. */
  lemma ListedCompletedIff(jobs: seq<Row>, payments: seq<Payment>)
    ensures var rows, paid := Filter(Priced, jobs), PaidJobs(payments);
            AllCompleted(Payouts(jobs, payments)) <==> EachSettled(rows, paid)
  {
    var rows, paid, payouts := Filter(Priced, jobs), PaidJobs(payments), Payouts(jobs, payments);
    if AllCompleted(payouts) {
      forall p | Serves(rows, p)
        ensures ServesSettled(rows, paid, p)
      {
        PayoutsListed(jobs, payments, Line(p, EntryFor(rows, paid, p)));
        CompletedIff(rows, paid, p);
      }
    }
    if EachSettled(rows, paid) {
      forall l | l in payouts
        ensures l.entry.completed > 0
      {
        PayoutsListed(jobs, payments, l);
        CompletedIff(rows, paid, l.provider);
      }
    }
  }

  /** A provider with a billed job, but none that is completed or paid, is listed without one. */
  lemma UnpaidIsListed(jobs: seq<Row>, payments: seq<Payment>, r: Row)
    requires r in jobs && Priced(r)
    requires forall x | x in jobs && Priced(x) && Jobs.BilledProvider(x.job) == Jobs.BilledProvider(r.job) ::
               !Settled(PaidJobs(payments), x)
    ensures var p := Jobs.BilledProvider(r.job).value;
            var line := Line(p, EntryFor(Filter(Priced, jobs), PaidJobs(payments), p));
            line in Payouts(jobs, payments) && line.entry.completed == 0 && line.entry.total > 0
  {
    var rows, paid, p := Filter(Priced, jobs), PaidJobs(payments), Jobs.BilledProvider(r.job).value;
    assert r in rows;
    var i :| 0 <= i < |rows| && rows[i] == r;
    assert Of(p)(rows[i]) && r in Filter(Of(p), rows);
    PayoutsListed(jobs, payments, Line(p, EntryFor(rows, paid, p)));
    forall k | 0 <= k < |rows|
      ensures !Among(Of(p), paid, true)(rows[k])
    {
      assert rows[k] in rows;
    }
    CompletedIff(rows, paid, p);
    EntryIsGroupBy(rows, paid, Of(p));
  }

  // ---- By columns ----------------------------------------------------------------------------

  /** The priced jobs of a provider: a mechanic's by the mechanic's id, a garage's by the garage's where
      there is no mechanic. */
  function PricedOf(p: Provider): Row -> bool {
    (r: Row) =>
      && r.job.pricing.service != None
      && (p.kind == Mechanic ==> r.job.mechanicId == Some(p.id))
      && (p.kind == Garage ==> r.job.mechanicId == None && r.job.garageId == Some(p.id))
  }

  /** Those of them that are completed, or have a captured payment. */
  function SettledOf(p: Provider, payments: seq<Payment>): Row -> bool {
    (r: Row) =>
      && PricedOf(p)(r)
      && (r.job.status == Completed || exists x :: x in payments && x.job == r.id && x.status == Captured)
  }

  function ServiceAmount(r: Row): real {
    match r.job.pricing.service
    case Some(amount) => amount
    case None => 0.0
  }

  lemma SelectsPriced(jobs: seq<Row>, payments: seq<Payment>, p: Provider)
    ensures Filter(Of(p), Filter(Priced, jobs)) == Filter(PricedOf(p), jobs)
    ensures Filter(Among(Of(p), PaidJobs(payments), true), Filter(Priced, jobs)) == Filter(SettledOf(p, payments), jobs)
  {
    FilterTwice(Of(p), Priced, PricedOf(p), jobs);
    FilterTwice(Among(Of(p), PaidJobs(payments), true), Priced, SettledOf(p, payments), jobs);
  }

  /** A provider's line, by the columns of the jobs and payments: it is there exactly when the provider
      has a priced job; it counts those, and those settled, and adds up what the settled are worth. */
  lemma LineByColumns(jobs: seq<Row>, payments: seq<Payment>, l: Line)
    ensures var priced, settled := Filter(PricedOf(l.provider), jobs), Filter(SettledOf(l.provider, payments), jobs);
            l in Payouts(jobs, payments)
            <==> && priced != []
                 && l.entry.total == |priced| && l.entry.completed == |settled|
                 && l.entry.pending == |priced| - |settled|
                 && l.entry.earned == l.entry.pendingAmount == Sum(Map(ServiceAmount, settled))
  {
    var rows, paid, p := Filter(Priced, jobs), PaidJobs(payments), l.provider;
    PayoutsListed(jobs, payments, l);
    SelectsPriced(jobs, payments, p);
    EntryIsGroupBy(rows, paid, Of(p));
    ServesIff(rows, p);
    var settled := Filter(SettledOf(p, payments), jobs);
    assert Map(Amount, settled) == Map(ServiceAmount, settled);
  }

  lemma ServesIff(rows: seq<Row>, p: Provider)
    ensures Serves(rows, p) <==> Filter(Of(p), rows) != []
  {
    var mine := Filter(Of(p), rows);
    if mine != [] {
      assert mine[0] in mine;
      var i :| 0 <= i < |rows| && rows[i] == mine[0];
    }
    if i :| 0 <= i < |rows| && Of(p)(rows[i]) {
      assert rows[i] in mine;
    }
  }

  // ---- Ties ----------------------------------------------------------------------------------

  predicate Owes(l: Line, amount: real) {
    l.entry.pendingAmount == amount
  }

  /** Providers with the same amount pending keep the order in which their first jobs came. */
  lemma TiesKeepOrder(jobs: seq<Row>, payments: seq<Payment>, amount: real)
    ensures var d := Entered(Filter(Priced, jobs), PaidJobs(payments));
            Filter(l => Owes(l, amount), Payouts(jobs, payments)) == Filter(l => Owes(l, amount), Values(d, d.order))
  {
    var d := Entered(Filter(Priced, jobs), PaidJobs(payments));
    SortStable(ByPending, Values(d, d.order), l => Owes(l, amount));
  }

  lemma PricedCovered(jobs: seq<Row>, d: Dict)
    requires forall p :: p in d.order <==> Serves(Filter(Priced, jobs), p)
    ensures Covers(Filter(Priced, jobs), d.order)
  {
    var rows := Filter(Priced, jobs);
    forall i | 0 <= i < |rows|
      ensures Jobs.BilledProvider(rows[i].job).Some? && Jobs.BilledProvider(rows[i].job).value in d.order
    {
      assert rows[i] in rows && Priced(rows[i]);
      assert Of(Jobs.BilledProvider(rows[i].job).value)(rows[i]);
    }
  }
}
