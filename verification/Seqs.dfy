/** Sequences: filtering, mapping, and the stable descending sort of Python's `list.sort`. */
module Seqs {

  function Filter<T>(keep: T -> bool, s: seq<T>): (r: seq<T>)
    ensures |r| <= |s|
    ensures forall x | x in r :: x in s && keep(x)
    ensures forall x | x in s && keep(x) :: x in r
  {
    if s == [] then []
    else
      var rest := Filter(keep, s[..|s| - 1]);
      if keep(s[|s| - 1]) then rest + [s[|s| - 1]] else rest
  }

  function Map<T, U>(f: T -> U, s: seq<T>): (r: seq<U>)
    ensures |r| == |s|
    ensures forall i :: 0 <= i < |s| ==> r[i] == f(s[i])
  {
    seq(|s|, i requires 0 <= i < |s| => f(s[i]))
  }

  function Take<T>(s: seq<T>, n: nat): seq<T> {
    if n <= |s| then s[..n] else s
  }

  predicate Distinct<T(==)>(s: seq<T>) {
    forall i, j :: 0 <= i < j < |s| ==> s[i] != s[j]
  }

  function Sum(s: seq<real>): real {
    if s == [] then 0.0 else Sum(s[..|s| - 1]) + s[|s| - 1]
  }

  lemma {:induction false} FilterAll<T>(keep: T -> bool, s: seq<T>)
    requires forall x :: x in s ==> keep(x)
    ensures Filter(keep, s) == s
  {
    if s != [] {
      FilterAll(keep, s[..|s| - 1]);
    }
  }

  lemma {:induction false} FilterSame<T>(p: T -> bool, q: T -> bool, s: seq<T>)
    requires forall x | x in s :: p(x) == q(x)
    ensures Filter(p, s) == Filter(q, s)
  {
    if s != [] {
      FilterSame(p, q, s[..|s| - 1]);
    }
  }

  lemma {:induction false} FilterTwice<T>(p: T -> bool, q: T -> bool, both: T -> bool, s: seq<T>)
    requires forall x :: x in s ==> (both(x) <==> p(x) && q(x))
    ensures Filter(p, Filter(q, s)) == Filter(both, s)
  {
    if s != [] {
      var init, last := s[..|s| - 1], s[|s| - 1];
      FilterTwice(p, q, both, init);
      if q(last) {
        assert (Filter(q, init) + [last])[..|Filter(q, init)|] == Filter(q, init);
      }
    }
  }

  lemma {:induction false} FilterDistinct<T>(keep: T -> bool, s: seq<T>)
    requires Distinct(s)
    ensures Distinct(Filter(keep, s))
  {
    if s != [] {
      FilterDistinct(keep, s[..|s| - 1]);
    }
  }

  /** A number that is not taken: above all of them. */
  lemma {:induction false} AboveAll(ids: set<nat>) returns (bound: nat)
    ensures forall id | id in ids :: id < bound
  {
    if ids == {} {
      bound := 0;
    } else {
      var id :| id in ids;
      var rest := ids - {id};
      bound := AboveAll(rest);
      if id >= bound { bound := id + 1; }
      assert forall x | x in ids :: x == id || x in rest;
    }
  }

  // ---- Sorting -------------------------------------------------------------------------------

  predicate Descending<T>(key: T -> real, s: seq<T>) {
    forall i, j :: 0 <= i < j < |s| ==> key(s[i]) >= key(s[j])
  }

  lemma {:induction false} FilterDescending<T>(key: T -> real, keep: T -> bool, s: seq<T>)
    requires Descending(key, s)
    ensures Descending(key, Filter(keep, s))
  {
    if s != [] {
      var init, last := s[..|s| - 1], s[|s| - 1];
      FilterDescending(key, keep, init);
      var kept := Filter(keep, init);
      forall i | 0 <= i < |kept|
        ensures key(kept[i]) >= key(last)
      {
        assert kept[i] in kept && kept[i] in init;
        var j :| 0 <= j < |init| && init[j] == kept[i];
        assert s[j] == kept[i];
      }
    }
  }

  /** Puts x behind every element that is at least as great. */
  function Insert<T>(key: T -> real, x: T, s: seq<T>): (r: seq<T>)
    ensures |r| == |s| + 1
    ensures forall y | y in r :: y in s || y == x
  {
    if s == [] then [x]
    else if key(s[|s| - 1]) >= key(x) then s + [x]
    else Insert(key, x, s[..|s| - 1]) + [s[|s| - 1]]
  }

  lemma {:induction false} InsertDescending<T>(key: T -> real, x: T, s: seq<T>)
    requires Descending(key, s)
    ensures Descending(key, Insert(key, x, s))
  {
    if s != [] && key(s[|s| - 1]) < key(x) {
      InsertDescending(key, x, s[..|s| - 1]);
      var rest := Insert(key, x, s[..|s| - 1]);
      forall i | 0 <= i < |rest|
        ensures key(rest[i]) >= key(s[|s| - 1])
      {
        assert rest[i] in rest;
      }
    }
  }

  lemma {:induction false} InsertBag<T>(key: T -> real, x: T, s: seq<T>)
    ensures multiset(Insert(key, x, s)) == multiset(s) + multiset{x}
  {
    if s != [] && key(s[|s| - 1]) < key(x) {
      InsertBag(key, x, s[..|s| - 1]);
      assert s == s[..|s| - 1] + [s[|s| - 1]];
    }
  }

  function SortDescending<T>(key: T -> real, s: seq<T>): (r: seq<T>)
    ensures |r| == |s|
  {
    if s == [] then [] else Insert(key, s[|s| - 1], SortDescending(key, s[..|s| - 1]))
  }

  lemma {:induction false} SortPermutes<T>(key: T -> real, s: seq<T>)
    ensures multiset(SortDescending(key, s)) == multiset(s)
  {
    if s != [] {
      var init, last := s[..|s| - 1], s[|s| - 1];
      SortPermutes(key, init);
      InsertBag(key, last, SortDescending(key, init));
      assert s == init + [last];
    }
  }

  lemma {:induction false} SortDescends<T>(key: T -> real, s: seq<T>)
    ensures Descending(key, SortDescending(key, s))
  {
    if s != [] {
      SortDescends(key, s[..|s| - 1]);
      InsertDescending(key, s[|s| - 1], SortDescending(key, s[..|s| - 1]));
    }
  }

  /** Sorting permutes, and the result descends. */
  lemma SortSorts<T>(key: T -> real, s: seq<T>)
    ensures multiset(SortDescending(key, s)) == multiset(s)
    ensures Descending(key, SortDescending(key, s))
  {
    SortPermutes(key, s);
    SortDescends(key, s);
  }

  lemma {:induction false} FilterNone<T>(keep: T -> bool, s: seq<T>)
    requires forall i :: 0 <= i < |s| ==> !keep(s[i])
    ensures Filter(keep, s) == []
  {
    if s != [] {
      FilterNone(keep, s[..|s| - 1]);
    }
  }

  lemma FilterAppend<T>(keep: T -> bool, s: seq<T>, x: T)
    ensures Filter(keep, s + [x]) == Filter(keep, s) + (if keep(x) then [x] else [])
  {
  }

  /** The elements selected all have one key. */
  ghost predicate OneKey<T(!new)>(key: T -> real, same: T -> bool) {
    forall y, z :: same(y) && same(z) ==> key(y) == key(z)
  }

  lemma {:induction false} InsertStable<T(!new)>(key: T -> real, x: T, s: seq<T>, same: T -> bool)
    requires OneKey(key, same)
    ensures Filter(same, Insert(key, x, s)) == Filter(same, s + [x])
  {
    if s != [] && key(s[|s| - 1]) < key(x) {
      var init, last := s[..|s| - 1], s[|s| - 1];
      InsertStable(key, x, init, same);
      FilterAppend(same, init, x);
      FilterAppend(same, Insert(key, x, init), last);
      FilterAppend(same, s, x);
    }
  }

  /** Elements of one key keep their order. */
  lemma {:induction false} SortStable<T(!new)>(key: T -> real, s: seq<T>, same: T -> bool)
    requires OneKey(key, same)
    ensures Filter(same, SortDescending(key, s)) == Filter(same, s)
  {
    if s != [] {
      var init, last := s[..|s| - 1], s[|s| - 1];
      SortStable(key, init, same);
      InsertStable(key, last, SortDescending(key, init), same);
      FilterAppend(same, SortDescending(key, init), last);
    }
  }

  // ---- The best n ----------------------------------------------------------------------------

  /** `all` is `chosen` and `left` together, and nothing left beats anything chosen. */
  ghost predicate Beats<T>(all: seq<T>, chosen: seq<T>, left: seq<T>, key: T -> real) {
    && multiset(all) == multiset(chosen) + multiset(left)
    && forall i, j :: 0 <= i < |chosen| && 0 <= j < |left| ==> key(chosen[i]) >= key(left[j])
  }

  /** `chosen` is n of `all` (all of them when there are fewer), in descending order, and nothing
      left out beats anything chosen. Ties may be broken in any way. */
  ghost predicate Best<T(!new)>(all: seq<T>, chosen: seq<T>, n: nat, key: T -> real) {
    && |chosen| == (if n <= |all| then n else |all|)
    && Descending(key, chosen)
    && exists left: seq<T> :: Beats(all, chosen, left, key)
  }

  lemma CutBeats<T>(all: seq<T>, sorted: seq<T>, n: nat, key: T -> real)
    requires n <= |sorted| && Descending(key, sorted) && multiset(sorted) == multiset(all)
    ensures Beats(all, sorted[..n], sorted[n..], key)
  {
    assert sorted == sorted[..n] + sorted[n..];
  }

  lemma CutIsBest<T(!new)>(all: seq<T>, sorted: seq<T>, n: nat, key: T -> real)
    requires Descending(key, sorted) && multiset(sorted) == multiset(all) && |sorted| == |all|
    ensures Best(all, Take(sorted, n), n, key)
  {
    var cut := if n <= |all| then n else |all|;
    CutBeats(all, sorted, cut, key);
    assert Take(sorted, n) == sorted[..cut];
  }

  lemma TakeSortedIsBest<T(!new)>(all: seq<T>, n: nat, key: T -> real)
    ensures Best(all, Take(SortDescending(key, all), n), n, key)
  {
    SortSorts(key, all);
    CutIsBest(all, SortDescending(key, all), n, key);
  }

  /** The best n of at most n elements are all of them. */
  lemma BestOfFew<T(!new)>(all: seq<T>, chosen: seq<T>, n: nat, key: T -> real)
    requires Best(all, chosen, n, key) && |all| <= n
    ensures multiset(chosen) == multiset(all)
  {
  }

  /** What a best selection has is among all; what it leaves out is beaten by all of the n it has. */
  lemma BestLaw<T(!new)>(all: seq<T>, chosen: seq<T>, n: nat, key: T -> real, x: T)
    requires Best(all, chosen, n, key)
    ensures x in chosen ==> x in all
    ensures x in all && x !in chosen ==> |chosen| == n && forall y | y in chosen :: key(y) >= key(x)
  {
    var left :| Beats(all, chosen, left, key);
    assert x in multiset(all) <==> x in multiset(chosen) || x in multiset(left);
    if x in all && x !in chosen {
      var j :| 0 <= j < |left| && left[j] == x;
      assert |multiset(all)| == |multiset(chosen)| + |multiset(left)|;
    }
  }

  // ---- Permutations --------------------------------------------------------------------------

  lemma RemoveAt<T>(s: seq<T>, i: nat)
    requires i < |s|
    ensures multiset(s) == multiset(s[..i] + s[i + 1..]) + multiset{s[i]}
  {
    assert s == s[..i] + [s[i]] + s[i + 1..];
  }

  lemma Cancel<T>(a: multiset<T>, b: multiset<T>, x: T)
    requires a + multiset{x} == b + multiset{x}
    ensures a == b
  {
    assert a == (a + multiset{x}) - multiset{x};
    assert b == (b + multiset{x}) - multiset{x};
  }

  lemma MapRemoveAt<T, U>(f: T -> U, s: seq<T>, i: nat)
    requires i < |s|
    ensures multiset(Map(f, s)) == multiset(Map(f, s[..i] + s[i + 1..])) + multiset{f(s[i])}
  {
    RemoveAt(Map(f, s), i);
    assert Map(f, s[..i] + s[i + 1..]) == Map(f, s)[..i] + Map(f, s)[i + 1..];
  }

  lemma MapRemoveFirst<T, U>(f: T -> U, s: seq<T>)
    requires s != []
    ensures multiset(Map(f, s)) == multiset(Map(f, s[1..])) + multiset{f(s[0])}
  {
    MapRemoveAt(f, s, 0);
    assert s[..0] + s[1..] == s[1..];
  }

  lemma RemoveBoth<T>(a: seq<T>, b: seq<T>, i: nat)
    requires multiset(a) == multiset(b) && a != [] && i < |b| && b[i] == a[0]
    ensures multiset(a[1..]) == multiset(b[..i] + b[i + 1..])
  {
    RemoveAt(a, 0);
    assert a[..0] + a[1..] == a[1..];
    RemoveAt(b, i);
    Cancel(multiset(a[1..]), multiset(b[..i] + b[i + 1..]), a[0]);
  }

  lemma {:induction false} MapPermutation<T, U>(f: T -> U, a: seq<T>, b: seq<T>)
    requires multiset(a) == multiset(b)
    ensures multiset(Map(f, a)) == multiset(Map(f, b))
    decreases |a|
  {
    if a == [] {
      assert |multiset(b)| == 0;
      assert b == [];
    } else {
      assert a[0] in multiset(b);
      var i :| 0 <= i < |b| && b[i] == a[0];
      RemoveBoth(a, b, i);
      MapPermutation(f, a[1..], b[..i] + b[i + 1..]);
      MapRemoveFirst(f, a);
      MapRemoveAt(f, b, i);
    }
  }

  /** Two descending arrangements of the same elements show the same keys. */
  lemma DescendingKeysAgree<T>(key: T -> real, a: seq<T>, b: seq<T>)
    requires multiset(a) == multiset(b)
    requires Descending(key, a) && Descending(key, b)
    ensures Map(key, a) == Map(key, b)
  {
    MapPermutation(key, a, b);
    DescendingUnique(Map(key, a), Map(key, b));
  }

  /** A best selection followed by the sorted rest sorts everything. */
  lemma BestThenRest<T>(all: seq<T>, chosen: seq<T>, left: seq<T>, key: T -> real)
    requires Beats(all, chosen, left, key) && Descending(key, chosen)
    ensures Descending(key, chosen + SortDescending(key, left))
    ensures multiset(chosen + SortDescending(key, left)) == multiset(all)
  {
    var rest := SortDescending(key, left);
    SortSorts(key, left);
    forall i, j | 0 <= i < |chosen| && 0 <= j < |rest|
      ensures key(chosen[i]) >= key(rest[j])
    {
      assert rest[j] in multiset(left);
      var k :| 0 <= k < |left| && left[k] == rest[j];
    }
  }

  lemma MapConcat<T, U>(f: T -> U, a: seq<T>, b: seq<T>)
    ensures Map(f, a + b) == Map(f, a) + Map(f, b)
  {
  }

  /** Two best selections of the same size show the same keys. */
  lemma BestKeysAgree<T>(all: seq<T>, a: seq<T>, leftA: seq<T>, b: seq<T>, leftB: seq<T>, key: T -> real)
    requires Beats(all, a, leftA, key) && Beats(all, b, leftB, key)
    requires Descending(key, a) && Descending(key, b) && |a| == |b|
    ensures Map(key, a) == Map(key, b)
  {
    var restA, restB := SortDescending(key, leftA), SortDescending(key, leftB);
    BestThenRest(all, a, leftA, key);
    BestThenRest(all, b, leftB, key);
    DescendingKeysAgree(key, a + restA, b + restB);
    MapConcat(key, a, restA);
    MapConcat(key, b, restB);
    assert Map(key, a) == Map(key, a + restA)[..|a|];
    assert Map(key, b) == Map(key, b + restB)[..|b|];
  }

  /** What shows the keys of a best selection leaves the same keys out. */
  lemma SameKeysLeft<T>(key: T -> real, a: seq<T>, leftA: seq<T>, b: seq<T>, leftB: seq<T>)
    requires multiset(a) + multiset(leftA) == multiset(b) + multiset(leftB)
    requires Map(key, a) == Map(key, b)
    ensures multiset(Map(key, leftA)) == multiset(Map(key, leftB))
  {
    MapPermutation(key, a + leftA, b + leftB);
    MapConcat(key, a, leftA);
    MapConcat(key, b, leftB);
    var keys := multiset(Map(key, a));
    assert multiset(Map(key, leftA)) == (keys + multiset(Map(key, leftA))) - keys;
    assert multiset(Map(key, leftB)) == (keys + multiset(Map(key, leftB))) - keys;
  }

  /** A selection of the size of a best one shows its keys if and only if nothing it leaves out beats
      anything it has. */
  lemma BestKeysIff<T(!new)>(all: seq<T>, best: seq<T>, n: nat, chosen: seq<T>, left: seq<T>, key: T -> real)
    requires Best(all, best, n, key) && Descending(key, chosen) && |chosen| == |best|
    requires multiset(all) == multiset(chosen) + multiset(left)
    ensures Map(key, best) == Map(key, chosen) <==> Beats(all, chosen, left, key)
  {
    var rest :| Beats(all, best, rest, key);
    if Beats(all, chosen, left, key) {
      BestKeysAgree(all, best, rest, chosen, left, key);
    }
    if Map(key, best) == Map(key, chosen) {
      SameKeysLeft(key, best, rest, chosen, left);
      forall i, j | 0 <= i < |chosen| && 0 <= j < |left|
        ensures key(chosen[i]) >= key(left[j])
      {
        assert Map(key, best)[i] == Map(key, chosen)[i];
        assert Map(key, left)[j] in multiset(Map(key, rest));
        var k :| 0 <= k < |rest| && Map(key, rest)[k] == Map(key, left)[j];
      }
    }
  }

  lemma {:induction false} DescendingUnique(a: seq<real>, b: seq<real>)
    requires multiset(a) == multiset(b)
    requires Descending(x => x, a) && Descending(x => x, b)
    ensures a == b
  {
    assert |a| == |multiset(a)| == |multiset(b)| == |b|;
    if a != [] {
      SameLast(a, b);
      SplitLast(a);
      SplitLast(b);
      Cancel(multiset(a[..|a| - 1]), multiset(b[..|b| - 1]), a[|a| - 1]);
      DescendingUnique(a[..|a| - 1], b[..|b| - 1]);
    }
  }

  lemma SplitLast<T>(s: seq<T>)
    requires s != []
    ensures multiset(s) == multiset(s[..|s| - 1]) + multiset{s[|s| - 1]}
    ensures s == s[..|s| - 1] + [s[|s| - 1]]
  {
    assert s == s[..|s| - 1] + [s[|s| - 1]];
  }

  lemma SameLast(a: seq<real>, b: seq<real>)
    requires multiset(a) == multiset(b) && |a| == |b| > 0
    requires Descending(x => x, a) && Descending(x => x, b)
    ensures a[|a| - 1] == b[|b| - 1]
  {
    assert a[|a| - 1] in multiset(b) && b[|b| - 1] in multiset(a);
    var i :| 0 <= i < |b| && b[i] == a[|a| - 1];
    var j :| 0 <= j < |a| && a[j] == b[|b| - 1];
  }

  /** A sequence is duplicate-free exactly when its multiset counts nothing twice. */
  lemma {:induction false} DistinctByCount<T>(s: seq<T>)
    ensures Distinct(s) <==> forall x :: multiset(s)[x] <= 1
  {
    if s != [] {
      var init, last := s[..|s| - 1], s[|s| - 1];
      assert s == init + [last];
      DistinctByCount(init);
      if Distinct(s) {
        assert last !in init;
        assert multiset(init)[last] == 0;
      } else {
        if Distinct(init) {
          assert last in init;
          assert multiset(s)[last] == multiset(init)[last] + 1;
        } else {
          var x :| multiset(init)[x] > 1;
          assert multiset(s)[x] > 1;
        }
      }
    }
  }

  lemma PermutationDistinct<T>(a: seq<T>, b: seq<T>)
    requires multiset(a) == multiset(b) && Distinct(a)
    ensures Distinct(b)
  {
    DistinctByCount(a);
    DistinctByCount(b);
  }
}
