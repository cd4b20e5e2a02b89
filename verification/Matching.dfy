/** Provider discovery. Two algorithms stand behind one contract: the database one reads the
    nearest `limit` providers in radius and sorts those by score; the fallback reads up to 200
    rows in account order, scores all that are in radius, sorts, and cuts to `limit`.

    A row carries its distance from the customer, so both algorithms see one distance function.
    Mechanics and garages differ only in the score bonus (0.5 and 0.3) and in what `listed`
    requires of a row. */
module Matching {
  import opened Records
  import opened Seqs

  const MAX_FALLBACK_ROWS: nat := 200
  const MECHANIC_BONUS := 0.5
  const GARAGE_BONUS := 0.3

  // ---- Issue tags ----------------------------------------------------------------------------

  const ISSUE_TO_EXPERTISE: map<string, Option<string>> := map[
    "flat_tire" := Some("tires"),
    "engine_failure" := Some("engine"),
    "battery_dead" := Some("battery"),
    "overheating" := Some("engine"),
    "brake_issue" := Some("brakes"),
    "oil_leak" := Some("oil"),
    "electrical" := Some("electrical"),
    "ac_not_working" := Some("ac"),
    "transmission" := Some("transmission"),
    "starting_issue" := Some("engine"),
    "noise" := Some("diagnostics"),
    "other" := None
  ]

  const EXPERTISE_VALUES: set<string> :=
    set tag | tag in ISSUE_TO_EXPERTISE && ISSUE_TO_EXPERTISE[tag].Some? :: ISSUE_TO_EXPERTISE[tag].value

  /** What a job's tag asks for; None asks for anyone. */
  function IssueTagToExpertise(tag: string): Option<string> {
    if tag in ISSUE_TO_EXPERTISE then ISSUE_TO_EXPERTISE[tag] else None
  }

  /** The same for a query, which may have been given a tag or an expertise. */
  function ResolveExpertise(tag: Option<string>): Option<string> {
    if tag.None? || tag.value == "" then None
    else if tag.value in ISSUE_TO_EXPERTISE then ISSUE_TO_EXPERTISE[tag.value]
    else if tag.value in EXPERTISE_VALUES then tag
    else None
  }

  /** A caller that maps the tag itself before it queries gets the same filter as one that does
      not, and mapping again changes nothing. */
  lemma ResolveAfterMapping(tag: string)
    ensures ResolveExpertise(IssueTagToExpertise(tag)) == IssueTagToExpertise(tag) == ResolveExpertise(
              if IssueTagToExpertise(tag).Some? then Some(tag) else None)
    ensures ResolveExpertise(ResolveExpertise(Some(tag))) == ResolveExpertise(Some(tag))
  {
  }

  // ---- Rows, queries, scores -----------------------------------------------------------------

  datatype Row = Row(id: ProviderId, distance: real, rating: Option<real>, expertise: seq<string>, listed: bool)

  datatype Query = Query(tag: Option<string>, limit: nat, radius: real, bonus: real)

  datatype Ranked = Ranked(id: ProviderId, rating: real, distance: real, score: real)

  /** A rating of 0 stands for no reviews and counts as 3. */
  function Score(distance: real, rating: real, bonus: real): real {
    var km := if distance / 1000.0 > 0.05 then distance / 1000.0 else 0.05;
    (if rating == 0.0 then 3.0 else rating) * 2.0 - km * 0.8 + bonus
  }

  function RankRow(row: Row, bonus: real): Ranked {
    var rating := if row.rating.Some? then row.rating.value else 0.0;
    Ranked(row.id, rating, row.distance, Score(row.distance, rating, bonus))
  }

  function RankRows(rows: seq<Row>, bonus: real): (r: seq<Ranked>)
    ensures |r| == |rows|
    ensures forall i :: 0 <= i < |rows| ==> r[i] == RankRow(rows[i], bonus)
  {
    Map(row => RankRow(row, bonus), rows)
  }

  const ByScore: Ranked -> real := (r: Ranked) => r.score
  const ByNearness: Row -> real := (r: Row) => -r.distance
  const Nearer: Ranked -> real := (r: Ranked) => -r.distance

  const RowId: Row -> ProviderId := (r: Row) => r.id
  const RankedId: Ranked -> ProviderId := (r: Ranked) => r.id
  const Listed: Row -> bool := (r: Row) => r.listed

  predicate HasExpertise(row: Row, expertise: Option<string>) {
    expertise.Some? ==> expertise.value in row.expertise
  }

  function Wanted(expertise: Option<string>): Row -> bool {
    (r: Row) => HasExpertise(r, expertise)
  }

  function ListedAndWanted(expertise: Option<string>): Row -> bool {
    (r: Row) => r.listed && HasExpertise(r, expertise)
  }

  function Within(radius: real): Row -> bool {
    (r: Row) => r.distance <= radius
  }

  function InRadius(rows: seq<Row>, radius: real): seq<Row> {
    Filter(Within(radius), rows)
  }

  /** The rows the filter of the query lets through. */
  function Passing(table: seq<Row>, tag: Option<string>): seq<Row> {
    Filter(ListedAndWanted(ResolveExpertise(tag)), table)
  }

  /** The providers a query is about: filtered and in radius. */
  function Eligible(table: seq<Row>, q: Query): seq<Row> {
    InRadius(Passing(table, q.tag), q.radius)
  }

  // ---- The two algorithms --------------------------------------------------------------------

  /** The rows the fallback reads. A database without the array operator makes it read 200 listed
      rows first and look at the expertise afterwards. */
  function FallbackRows(table: seq<Row>, tag: Option<string>, arrays: bool): seq<Row> {
    var expertise := ResolveExpertise(tag);
    if expertise.None? || arrays then Take(Passing(table, tag), MAX_FALLBACK_ROWS)
    else Filter(Wanted(expertise), Take(Filter(Listed, table), MAX_FALLBACK_ROWS))
  }

  function Fallback(table: seq<Row>, q: Query, arrays: bool): seq<Ranked> {
    var inRadius := InRadius(FallbackRows(table, q.tag, arrays), q.radius);
    Take(SortDescending(ByScore, RankRows(inRadius, q.bonus)), q.limit)
  }

  /** The answers the database may give to ORDER BY distance LIMIT limit. */
  ghost predicate NearestRows(table: seq<Row>, q: Query, rows: seq<Row>) {
    Best(Eligible(table, q), rows, q.limit, ByNearness)
  }

  function RankNearest(rows: seq<Row>, bonus: real): seq<Ranked> {
    SortDescending(ByScore, RankRows(rows, bonus))
  }

  /** The loop that replaces a missing array operator. */
  method SelectByExpertise(all: seq<Row>, expertise: string) returns (rows: seq<Row>)
    ensures rows == Filter(Wanted(Some(expertise)), all)
  {
    rows := [];
    for i := 0 to |all|
      invariant rows == Filter(Wanted(Some(expertise)), all[..i])
    {
      FilterAppend(Wanted(Some(expertise)), all[..i], all[i]);
      assert all[..i + 1] == all[..i] + [all[i]];
      if expertise in all[i].expertise {
        rows := rows + [all[i]];
      }
    }
    assert all[..|all|] == all;
  }

  /** The row query of the fallback. */
  method ReadFallbackRows(table: seq<Row>, tag: Option<string>, arrays: bool) returns (rows: seq<Row>)
    ensures rows == FallbackRows(table, tag, arrays)
  {
    var expertise := ResolveExpertise(tag);
    if expertise.None? || arrays {
      rows := Take(Passing(table, tag), MAX_FALLBACK_ROWS);
    } else {
      rows := SelectByExpertise(Take(Filter(Listed, table), MAX_FALLBACK_ROWS), expertise.value);
    }
  }

  lemma RankStep(rows: seq<Row>, i: nat, q: Query)
    requires i < |rows|
    ensures RankRows(InRadius(rows[..i + 1], q.radius), q.bonus)
            == RankRows(InRadius(rows[..i], q.radius), q.bonus)
               + if rows[i].distance > q.radius then [] else [RankRow(rows[i], q.bonus)]
  {
    assert rows[..i + 1] == rows[..i] + [rows[i]];
    FilterAppend(Within(q.radius), rows[..i], rows[i]);
  }

  /** The loop over the rows that were read. */
  method RankInRadius(rows: seq<Row>, q: Query) returns (ranked: seq<Ranked>)
    ensures ranked == RankRows(InRadius(rows, q.radius), q.bonus)
  {
    ranked := [];
    for i := 0 to |rows|
      invariant ranked == RankRows(InRadius(rows[..i], q.radius), q.bonus)
    {
      RankStep(rows, i, q);
      if rows[i].distance > q.radius {
        continue;
      }
      ranked := ranked + [RankRow(rows[i], q.bonus)];
    }
    assert rows[..|rows|] == rows;
  }

  /** Keeps the rows in radius, ranks them, sorts, cuts. */
  method FallbackProviders(table: seq<Row>, q: Query, arrays: bool) returns (ranked: seq<Ranked>)
    ensures ranked == Fallback(table, q, arrays)
  {
    var rows := ReadFallbackRows(table, q.tag, arrays);
    ranked := RankInRadius(rows, q);
    ranked := SortDescending(ByScore, ranked);
    ranked := Take(ranked, q.limit);
  }

  /** `answer` is what the spatial query returned, None when it failed. */
  method NearestProviders(answer: Option<seq<Row>>, table: seq<Row>, q: Query, arrays: bool)
    returns (ranked: seq<Ranked>)
    ensures ranked == if answer.Some? then RankNearest(answer.value, q.bonus) else Fallback(table, q, arrays)
  {
    if answer.Some? {
      ranked := [];
      for i := 0 to |answer.value|
        invariant ranked == RankRows(answer.value[..i], q.bonus)
      {
        ranked := ranked + [RankRow(answer.value[i], q.bonus)];
      }
      assert answer.value[..|answer.value|] == answer.value;
      ranked := SortDescending(ByScore, ranked);
      return;
    }
    ranked := FallbackProviders(table, q, arrays);
  }

  /** What the score trades: a star for 2.5 km; nothing is gained below 50 m; a farther or worse
      provider never scores more; no reviews are as good as three stars. */
  lemma ScoreTrades(d: real, d': real, r: real, r': real, bonus: real)
    requires 0.0 <= d <= d' && 0.0 < r <= r'
    ensures Score(d', r, bonus) <= Score(d, r', bonus)
    ensures Score(d, r + 1.0, bonus) == Score(d, r, bonus) + 2.0
    ensures 50.0 <= d ==> Score(d + 2500.0, r + 1.0, bonus) == Score(d, r, bonus)
    ensures d' <= 50.0 ==> Score(d, r, bonus) == Score(d', r, bonus)
    ensures Score(d, 0.0, bonus) == Score(d, 3.0, bonus)
    ensures Score(0.0, 3.0, bonus) == 5.96 + bonus
    ensures Score(0.0, 3.0, MECHANIC_BONUS) == 6.46 && Score(0.0, 3.0, GARAGE_BONUS) == 6.26
  {
  }

  /** A ranked provider is its row, without a rating as 0, with its score. */
  lemma RankedByColumns(row: Row, bonus: real)
    ensures var r := RankRow(row, bonus);
            && r.id == row.id && r.distance == row.distance
            && (row.rating == None ==> r.rating == 0.0 && r.score == Score(row.distance, 3.0, bonus))
            && (row.rating != None ==> row.rating == Some(r.rating) && r.score == Score(row.distance, r.rating, bonus))
  {
  }

  // ---- What each returns ---------------------------------------------------------------------

  /** The fallback: the best `limit` by score of the rows it read that are in radius. */
  lemma FallbackIsBestByScore(table: seq<Row>, q: Query, arrays: bool)
    ensures Best(RankRows(InRadius(FallbackRows(table, q.tag, arrays), q.radius), q.bonus),
                 Fallback(table, q, arrays), q.limit, ByScore)
  {
    TakeSortedIsBest(RankRows(InRadius(FallbackRows(table, q.tag, arrays), q.radius), q.bonus), q.limit, ByScore);
  }

  /** The spatial path: exactly the rows the database chose (the nearest `limit`), by score. */
  lemma NearestIsSortedByScore(table: seq<Row>, q: Query, rows: seq<Row>)
    requires NearestRows(table, q, rows)
    ensures multiset(RankNearest(rows, q.bonus)) == multiset(RankRows(rows, q.bonus))
    ensures Descending(ByScore, RankNearest(rows, q.bonus))
    ensures |RankNearest(rows, q.bonus)| <= q.limit
  {
    SortSorts(ByScore, RankRows(rows, q.bonus));
  }

  predicate Scores(r: Ranked, score: real) {
    r.score == score
  }

  /** Of equal scores the nearer provider stays first: the sort keeps the order of the rows. */
  lemma TiesStayByDistance(rows: seq<Row>, bonus: real, score: real)
    requires Descending(ByNearness, rows)
    ensures var tied := Filter(r => Scores(r, score), RankNearest(rows, bonus));
            && tied == Filter(r => Scores(r, score), RankRows(rows, bonus))
            && Descending(Nearer, tied)
  {
    SortStable(ByScore, RankRows(rows, bonus), r => Scores(r, score));
    FilterDescending(Nearer, r => Scores(r, score), RankRows(rows, bonus));
  }

  /** Whether the fallback's first 200 rows are all there are. */
  predicate FallbackSeesAll(table: seq<Row>, tag: Option<string>, arrays: bool) {
    if ResolveExpertise(tag).None? || arrays then |Passing(table, tag)| <= MAX_FALLBACK_ROWS
    else |Filter(Listed, table)| <= MAX_FALLBACK_ROWS
  }

  lemma FallbackReadsPassing(table: seq<Row>, tag: Option<string>, arrays: bool)
    requires FallbackSeesAll(table, tag, arrays)
    ensures FallbackRows(table, tag, arrays) == Passing(table, tag)
  {
    var expertise := ResolveExpertise(tag);
    if expertise.Some? && !arrays {
      assert Take(Filter(Listed, table), MAX_FALLBACK_ROWS) == Filter(Listed, table);
      FilterTwice(Wanted(expertise), Listed, ListedAndWanted(expertise), table);
    }
  }

  /** One contract: when the fallback sees every row that passes the filter and at most `limit`
      providers are in radius, the two return the same providers and the same scores in the same
      order, whatever way the database broke its ties. */
  lemma AlgorithmsAgree(table: seq<Row>, q: Query, arrays: bool, rows: seq<Row>)
    requires NearestRows(table, q, rows)
    requires FallbackSeesAll(table, q.tag, arrays)
    requires |Eligible(table, q)| <= q.limit
    ensures multiset(Fallback(table, q, arrays)) == multiset(RankNearest(rows, q.bonus))
            == multiset(RankRows(Eligible(table, q), q.bonus))
    ensures Map(ByScore, Fallback(table, q, arrays)) == Map(ByScore, RankNearest(rows, q.bonus))
  {
    var all := RankRows(Eligible(table, q), q.bonus);
    FallbackReadsPassing(table, q.tag, arrays);
    FallbackIsBestByScore(table, q, arrays);
    BestOfFew(all, Fallback(table, q, arrays), q.limit, ByScore);
    BestOfFew(Eligible(table, q), rows, q.limit, ByNearness);
    MapPermutation(row => RankRow(row, q.bonus), rows, Eligible(table, q));
    NearestIsSortedByScore(table, q, rows);
    DescendingKeysAgree(ByScore, Fallback(table, q, arrays), RankNearest(rows, q.bonus));
  }

  /** Nobody left out has a better score than anybody chosen. */
  predicate NoneOutscores(left: seq<Row>, chosen: seq<Row>, bonus: real) {
    forall i, j :: 0 <= i < |chosen| && 0 <= j < |left| ==>
      RankRow(chosen[i], bonus).score >= RankRow(left[j], bonus).score
  }

  lemma RankedSplit(all: seq<Row>, rows: seq<Row>, left: seq<Row>, bonus: real)
    requires multiset(all) == multiset(rows) + multiset(left)
    ensures multiset(RankRows(all, bonus)) == multiset(RankNearest(rows, bonus)) + multiset(RankRows(left, bonus))
  {
    MapPermutation(row => RankRow(row, bonus), all, rows + left);
    MapConcat(row => RankRow(row, bonus), rows, left);
    SortSorts(ByScore, RankRows(rows, bonus));
  }

  lemma NearestIsOfRows(rows: seq<Row>, bonus: real, x: Ranked)
    ensures x in RankNearest(rows, bonus) <==> exists k :: 0 <= k < |rows| && x == RankRow(rows[k], bonus)
  {
    var ranked := RankRows(rows, bonus);
    SortSorts(ByScore, ranked);
    assert x in RankNearest(rows, bonus) <==> x in multiset(ranked);
    if x in ranked {
      var k :| 0 <= k < |ranked| && ranked[k] == x;
      assert x == RankRow(rows[k], bonus);
    }
    if k :| 0 <= k < |rows| && x == RankRow(rows[k], bonus) {
      assert ranked[k] == x;
    }
  }

  lemma RankedBeatsIff(all: seq<Row>, rows: seq<Row>, left: seq<Row>, bonus: real)
    requires multiset(all) == multiset(rows) + multiset(left)
    ensures Beats(RankRows(all, bonus), RankNearest(rows, bonus), RankRows(left, bonus), ByScore)
            <==> NoneOutscores(left, rows, bonus)
  {
    var sorted, rest := RankNearest(rows, bonus), RankRows(left, bonus);
    RankedSplit(all, rows, left, bonus);
    if NoneOutscores(left, rows, bonus) {
      forall i, j | 0 <= i < |sorted| && 0 <= j < |rest|
        ensures sorted[i].score >= rest[j].score
      {
        NearestIsOfRows(rows, bonus, sorted[i]);
        var k :| 0 <= k < |rows| && sorted[i] == RankRow(rows[k], bonus);
      }
    }
    if Beats(RankRows(all, bonus), sorted, rest, ByScore) {
      forall k, j | 0 <= k < |rows| && 0 <= j < |left|
        ensures RankRow(rows[k], bonus).score >= RankRow(left[j], bonus).score
      {
        NearestIsOfRows(rows, bonus, RankRow(rows[k], bonus));
        var i :| 0 <= i < |sorted| && sorted[i] == RankRow(rows[k], bonus);
        assert ByScore(sorted[i]) >= ByScore(rest[j]);
      }
    }
  }

  /** The exact condition, for any number in radius: the two show the same scores if and only if no
      provider that the nearest `limit` leave out outscores one of them. */
  lemma AlgorithmsAgreeIff(table: seq<Row>, q: Query, arrays: bool, rows: seq<Row>, left: seq<Row>)
    requires NearestRows(table, q, rows)
    requires multiset(Eligible(table, q)) == multiset(rows) + multiset(left)
    requires FallbackSeesAll(table, q.tag, arrays)
    ensures Map(ByScore, Fallback(table, q, arrays)) == Map(ByScore, RankNearest(rows, q.bonus))
            <==> NoneOutscores(left, rows, q.bonus)
  {
    var all := RankRows(Eligible(table, q), q.bonus);
    FallbackReadsPassing(table, q.tag, arrays);
    FallbackIsBestByScore(table, q, arrays);
    SortSorts(ByScore, RankRows(rows, q.bonus));
    RankedSplit(Eligible(table, q), rows, left, q.bonus);
    RankedBeatsIff(Eligible(table, q), rows, left, q.bonus);
    BestKeysIff(all, Fallback(table, q, arrays), q.limit, RankNearest(rows, q.bonus), RankRows(left, q.bonus), ByScore);
  }

  // A near provider without reviews, and a slightly farther one with five stars.
  const UNRATED := Row(1, 1000.0, None, [], true)
  const FIVE_STARS := Row(2, 2000.0, Some(5.0), [], true)
  const TOP_ONE := Query(None, 1, 25000.0, MECHANIC_BONUS)

  lemma BothEligible()
    ensures Passing([UNRATED, FIVE_STARS], None) == [UNRATED, FIVE_STARS]
    ensures Eligible([UNRATED, FIVE_STARS], TOP_ONE) == [UNRATED, FIVE_STARS]
  {
    FilterAll(ListedAndWanted(None), [UNRATED, FIVE_STARS]);
    FilterAll(Within(TOP_ONE.radius), [UNRATED, FIVE_STARS]);
  }

  /** So with more in radius than `limit` they can part: here one returns the near provider, the other
      the well-rated one. */
  lemma AlgorithmsPartBeyondLimit()
    ensures NearestRows([UNRATED, FIVE_STARS], TOP_ONE, [UNRATED])
    ensures RankNearest([UNRATED], MECHANIC_BONUS) == [RankRow(UNRATED, MECHANIC_BONUS)]
    ensures Fallback([UNRATED, FIVE_STARS], TOP_ONE, true) == [RankRow(FIVE_STARS, MECHANIC_BONUS)]
  {
    BothEligible();
    assert Beats([UNRATED, FIVE_STARS], [UNRATED], [FIVE_STARS], ByNearness) by {
      assert [UNRATED, FIVE_STARS] == [UNRATED] + [FIVE_STARS];
    }
    var a, b := RankRow(UNRATED, MECHANIC_BONUS), RankRow(FIVE_STARS, MECHANIC_BONUS);
    SortPair(a, b);
    assert RankRows([UNRATED], MECHANIC_BONUS) == [a];
    assert RankRows([UNRATED, FIVE_STARS], MECHANIC_BONUS) == [a, b];
  }

  lemma SortPair(a: Ranked, b: Ranked)
    requires a.score < b.score
    ensures SortDescending(ByScore, [a]) == [a]
    ensures SortDescending(ByScore, [a, b]) == [b, a]
  {
    assert [a][..0] == [] && [a, b][..1] == [a];
    assert SortDescending(ByScore, [a]) == Insert(ByScore, a, []);
    assert Insert(ByScore, b, [a]) == Insert(ByScore, b, []) + [a];
  }

  /** Spatial results never repeat a provider and hold at most `limit`. */
  lemma NearestDistinct(table: seq<Row>, q: Query, rows: seq<Row>)
    requires Distinct(Map(RowId, table))
    requires NearestRows(table, q, rows)
    ensures Distinct(Map(RankedId, RankNearest(rows, q.bonus)))
    ensures |RankNearest(rows, q.bonus)| <= q.limit
  {
    FilterKeepsIdsDistinct(ListedAndWanted(ResolveExpertise(q.tag)), table);
    FilterKeepsIdsDistinct(Within(q.radius), Passing(table, q.tag));
    var left :| Beats(Eligible(table, q), rows, left, ByNearness);
    IdsOfPart(Eligible(table, q), rows, left);
    SortKeepsIdsDistinct(rows, q.bonus);
  }

  /** Nor do the results of the fallback. */
  lemma FallbackDistinct(table: seq<Row>, q: Query, arrays: bool)
    requires Distinct(Map(RowId, table))
    ensures Distinct(Map(RankedId, Fallback(table, q, arrays)))
    ensures |Fallback(table, q, arrays)| <= q.limit
  {
    var expertise := ResolveExpertise(q.tag);
    FilterKeepsIdsDistinct(ListedAndWanted(expertise), table);
    FilterKeepsIdsDistinct(Listed, table);
    TakeKeepsIdsDistinct(Passing(table, q.tag), MAX_FALLBACK_ROWS);
    TakeKeepsIdsDistinct(Filter(Listed, table), MAX_FALLBACK_ROWS);
    FilterKeepsIdsDistinct(Wanted(expertise), Take(Filter(Listed, table), MAX_FALLBACK_ROWS));
    var read := FallbackRows(table, q.tag, arrays);
    FilterKeepsIdsDistinct(Within(q.radius), read);
    SortKeepsIdsDistinct(InRadius(read, q.radius), q.bonus);
    var sorted := SortDescending(ByScore, RankRows(InRadius(read, q.radius), q.bonus));
    assert Map(RankedId, Take(sorted, q.limit)) == Take(Map(RankedId, sorted), q.limit);
  }

  lemma TakeKeepsIdsDistinct(s: seq<Row>, n: nat)
    requires Distinct(Map(RowId, s))
    ensures Distinct(Map(RowId, Take(s, n)))
  {
  }

  lemma {:induction false} FilterKeepsIdsDistinct(keep: Row -> bool, s: seq<Row>)
    requires Distinct(Map(RowId, s))
    ensures Distinct(Map(RowId, Filter(keep, s)))
  {
    if s != [] {
      var init, last := s[..|s| - 1], s[|s| - 1];
      assert Map(RowId, init) == Map(RowId, s)[..|init|];
      FilterKeepsIdsDistinct(keep, init);
      var kept := Filter(keep, init);
      forall i | 0 <= i < |kept|
        ensures kept[i].id != last.id
      {
        assert kept[i] in kept && kept[i] in init;
        var j :| 0 <= j < |init| && init[j] == kept[i];
        assert Map(RowId, s)[j] == kept[i].id;
        assert Map(RowId, s)[|init|] == last.id;
      }
    }
  }

  lemma IdsOfPart(all: seq<Row>, part: seq<Row>, left: seq<Row>)
    requires Distinct(Map(RowId, all))
    requires multiset(all) == multiset(part) + multiset(left)
    ensures Distinct(Map(RowId, part))
  {
    MapPermutation(RowId, all, part + left);
    PermutationDistinct(Map(RowId, all), Map(RowId, part + left));
    assert Map(RowId, part) == Map(RowId, part + left)[..|part|];
  }

  lemma SortKeepsIdsDistinct(rows: seq<Row>, bonus: real)
    requires Distinct(Map(RowId, rows))
    ensures Distinct(Map(RankedId, SortDescending(ByScore, RankRows(rows, bonus))))
  {
    var ranked := RankRows(rows, bonus);
    SortSorts(ByScore, ranked);
    assert Map(RankedId, ranked) == Map(RowId, rows);
    MapPermutation(RankedId, ranked, SortDescending(ByScore, ranked));
    PermutationDistinct(Map(RankedId, ranked), Map(RankedId, SortDescending(ByScore, ranked)));
  }

  /** Every answer a query may get: of the spatial path, or of the fallback on either database. */
  ghost predicate Answers(table: seq<Row>, q: Query, ids: seq<ProviderId>) {
    || (exists rows :: NearestRows(table, q, rows) && ids == Map(RankedId, RankNearest(rows, q.bonus)))
    || (exists arrays :: ids == Map(RankedId, Fallback(table, q, arrays)))
  }

  lemma AnswersDistinct(table: seq<Row>, q: Query, ids: seq<ProviderId>)
    requires Distinct(Map(RowId, table)) && Answers(table, q, ids)
    ensures Distinct(ids) && |ids| <= q.limit
  {
    if rows :| NearestRows(table, q, rows) && ids == Map(RankedId, RankNearest(rows, q.bonus)) {
      NearestDistinct(table, q, rows);
    } else {
      var arrays :| ids == Map(RankedId, Fallback(table, q, arrays));
      FallbackDistinct(table, q, arrays);
    }
  }

  // ---- Who is answered -----------------------------------------------------------------------

  /** The fallback reads listed providers with the wanted expertise. One that it does not read is
      beyond 200 of those, or beyond 200 listed ones where the database has no array operator. */
  lemma FallbackReadsLaw(table: seq<Row>, tag: Option<string>, arrays: bool, x: Row)
    ensures var rows, wanted := FallbackRows(table, tag, arrays), ResolveExpertise(tag);
            && (x in rows ==> x in table && x.listed && (wanted.Some? ==> wanted.value in x.expertise))
            && (x in table && x.listed && (wanted.Some? ==> wanted.value in x.expertise) && x !in rows ==>
                  if wanted.None? || arrays then |rows| == 200 else |Filter((r: Row) => r.listed, table)| > 200)
  {
    var wanted := ResolveExpertise(tag);
    FilterSame(Listed, (r: Row) => r.listed, table);
    assert forall r :: r in Take(Filter(Listed, table), MAX_FALLBACK_ROWS) ==> r in Filter(Listed, table);
    assert forall r :: r in Take(Passing(table, tag), MAX_FALLBACK_ROWS) ==> r in Passing(table, tag);
  }

  /** The tags by what they ask for. */
  lemma TagsByExpertise(tag: string)
    ensures IssueTagToExpertise(tag) == Some("tires") <==> tag == "flat_tire"
    ensures IssueTagToExpertise(tag) == Some("engine") <==> tag in {"engine_failure", "overheating", "starting_issue"}
    ensures IssueTagToExpertise(tag) == Some("battery") <==> tag == "battery_dead"
    ensures IssueTagToExpertise(tag) == Some("brakes") <==> tag == "brake_issue"
    ensures IssueTagToExpertise(tag) == Some("oil") <==> tag == "oil_leak"
    ensures IssueTagToExpertise(tag) == Some("ac") <==> tag == "ac_not_working"
    ensures IssueTagToExpertise(tag) == Some("diagnostics") <==> tag == "noise"
    ensures IssueTagToExpertise(tag) == Some(tag) <==> tag in {"electrical", "transmission"}
  {
  }

  lemma EligibleIff(table: seq<Row>, q: Query, x: Row)
    ensures x in Eligible(table, q) <==>
            && x in table && x.listed && x.distance <= q.radius
            && (ResolveExpertise(q.tag).Some? ==> ResolveExpertise(q.tag).value in x.expertise)
  {
    assert x in Eligible(table, q) <==> x in Passing(table, q.tag) && Within(q.radius)(x);
    assert x in Passing(table, q.tag) <==> x in table && ListedAndWanted(ResolveExpertise(q.tag))(x);
  }

  /** The spatial query answers listed providers in radius with the wanted expertise. One that it
      leaves out is no nearer than any of the `limit` it answers. */
  lemma NearestLaw(table: seq<Row>, q: Query, rows: seq<Row>, x: Row)
    requires NearestRows(table, q, rows)
    ensures var wanted := ResolveExpertise(q.tag);
            && (x in rows ==>
                  x in table && x.listed && x.distance <= q.radius && (wanted.Some? ==> wanted.value in x.expertise))
            && (x in table && x.listed && x.distance <= q.radius && (wanted.Some? ==> wanted.value in x.expertise) ==>
                  x in rows || (|rows| == q.limit && forall y | y in rows :: y.distance <= x.distance))
  {
    var all := Eligible(table, q);
    EligibleIff(table, q, x);
    BestLaw(all, rows, q.limit, ByNearness, x);
    assert forall y | y in rows :: ByNearness(y) == -y.distance;
  }

  /** The fallback answers providers that it has read, in radius, with their scores. One that it has
      read in radius and leaves out scores no better than any of the `limit` it answers. */
  lemma FallbackLaw(table: seq<Row>, q: Query, arrays: bool, y: Ranked, x: Row)
    ensures y in Fallback(table, q, arrays) ==>
              exists r :: r in FallbackRows(table, q.tag, arrays) && r.distance <= q.radius && y == RankRow(r, q.bonus)
    ensures x in FallbackRows(table, q.tag, arrays) && x.distance <= q.radius
            && RankRow(x, q.bonus) !in Fallback(table, q, arrays) ==>
              |Fallback(table, q, arrays)| == q.limit
              && forall z | z in Fallback(table, q, arrays) :: z.score >= RankRow(x, q.bonus).score
  {
    var rows := InRadius(FallbackRows(table, q.tag, arrays), q.radius);
    var all := RankRows(rows, q.bonus);
    FallbackIsBestByScore(table, q, arrays);
    BestLaw(all, Fallback(table, q, arrays), q.limit, ByScore, y);
    BestLaw(all, Fallback(table, q, arrays), q.limit, ByScore, RankRow(x, q.bonus));
    if y in all {
      var i :| 0 <= i < |all| && all[i] == y;
      assert rows[i] in rows && y == RankRow(rows[i], q.bonus);
    }
    if x in rows {
      var i :| 0 <= i < |rows| && rows[i] == x;
      assert all[i] == RankRow(x, q.bonus);
    }
    assert forall z | z in Fallback(table, q, arrays) :: ByScore(z) == z.score;
  }
}
