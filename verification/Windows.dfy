/** Sliding windows over a history of instants. A limiter keeps a pruned list; what it decides is
    a matter of the full history. Used by the socket's rate guard (a second, end excluded) and by
    the watchdog's restart budget (an hour, end included). */
module Windows {
  import opened Seqs

  datatype Window = Window(width: real, closed: bool)

  /** Whether t still counts at `now`. */
  predicate Covers(w: Window, t: real, now: real) {
    now - t < w.width || (w.closed && now - t == w.width)
  }

  function Counting(w: Window, now: real): real -> bool {
    (t: real) => Covers(w, t, now)
  }

  /** What a limiter keeps at `now`. */
  function Recent(w: Window, history: seq<real>, now: real): seq<real> {
    Filter(Counting(w, now), history)
  }

  function StartingAt(w: Window, from: real): real -> bool {
    (t: real) => from <= t && Covers(w, from, t)
  }

  /** What falls into the window that starts at `from`. */
  function Inside(w: Window, history: seq<real>, from: real): seq<real> {
    Filter(StartingAt(w, from), history)
  }

  ghost predicate Ordered(history: seq<real>, now: real) {
    && (forall i, j :: 0 <= i < j < |history| ==> history[i] <= history[j])
    && (forall i :: 0 <= i < |history| ==> history[i] <= now)
  }

  /** The i-th instant entered when fewer than `limit` counted. */
  predicate Entered(w: Window, history: seq<real>, i: nat, limit: nat)
    requires i < |history|
  {
    |Recent(w, history[..i], history[i])| < limit
  }

  ghost predicate Admissible(w: Window, history: seq<real>, limit: nat) {
    forall i :: 0 <= i < |history| ==> Entered(w, history, i, limit)
  }

  lemma {:induction false} FilterWeaker<T>(p: T -> bool, q: T -> bool, s: seq<T>)
    requires forall x | x in s :: p(x) ==> q(x)
    ensures |Filter(p, s)| <= |Filter(q, s)|
  {
    if s != [] {
      FilterWeaker(p, q, s[..|s| - 1]);
    }
  }

  /** Pruning an already pruned list, later, keeps what the full history would keep. */
  lemma PruneAgain(w: Window, history: seq<real>, before: real, now: real)
    requires before <= now
    ensures Recent(w, Recent(w, history, before), now) == Recent(w, history, now)
    ensures |Recent(w, history, now)| <= |Recent(w, history, before)|
  {
    FilterTwice(Counting(w, now), Counting(w, before), Counting(w, now), history);
    FilterWeaker(Counting(w, now), Counting(w, before), history);
  }

  /** A new instant counts at once. */
  lemma RecentSnoc(w: Window, history: seq<real>, now: real)
    requires w.width > 0.0
    ensures Recent(w, history + [now], now) == Recent(w, history, now) + [now]
  {
  }

  lemma AdmissibleSnoc(w: Window, history: seq<real>, now: real, limit: nat)
    requires Admissible(w, history, limit) && |Recent(w, history, now)| < limit
    ensures Admissible(w, history + [now], limit)
  {
    var more := history + [now];
    forall i | 0 <= i < |more|
      ensures Entered(w, more, i, limit)
    {
      if i < |history| {
        assert more[..i] == history[..i];
        assert Entered(w, history, i, limit);
      } else {
        assert more[..i] == history;
      }
    }
  }

  lemma AdmissibleInit(w: Window, history: seq<real>, limit: nat)
    requires history != [] && Admissible(w, history, limit)
    ensures Admissible(w, history[..|history| - 1], limit)
    ensures |Recent(w, history[..|history| - 1], history[|history| - 1])| < limit
  {
    var init := history[..|history| - 1];
    assert Entered(w, history, |init|, limit);
    forall i | 0 <= i < |init|
      ensures Entered(w, init, i, limit)
    {
      assert init[..i] == history[..i];
      assert Entered(w, history, i, limit);
    }
  }

  /** Everything in the window before its last instant still counted when that one entered. */
  lemma InsideCounted(w: Window, init: seq<real>, last: real, from: real)
    requires Ordered(init, last) && from <= last && Covers(w, from, last)
    ensures |Inside(w, init, from)| <= |Recent(w, init, last)|
  {
    forall t | t in init && StartingAt(w, from)(t)
      ensures Counting(w, last)(t)
    {
      var i :| 0 <= i < |init| && init[i] == t;
      assert last - t <= last - from;
    }
    FilterWeaker(StartingAt(w, from), Counting(w, last), init);
  }

  /** Then no window anywhere holds more than `limit`. */
  lemma {:induction false} NoWindowOverfull(w: Window, history: seq<real>, limit: nat, now: real, from: real)
    requires Ordered(history, now) && Admissible(w, history, limit)
    ensures |Inside(w, history, from)| <= limit
  {
    if history != [] {
      var init, last := history[..|history| - 1], history[|history| - 1];
      AdmissibleInit(w, history, limit);
      NoWindowOverfull(w, init, limit, last, from);
      if StartingAt(w, from)(last) {
        InsideCounted(w, init, last, from);
      }
    }
  }

  // ---- The same by position ------------------------------------------------------------------

  lemma {:induction false} FilterSplit<T>(keep: T -> bool, s: seq<T>, from: nat)
    requires from <= |s|
    ensures (forall i :: from <= i < |s| ==> keep(s[i])) ==> |Filter(keep, s)| >= |s| - from
    ensures (forall i :: 0 <= i < from ==> !keep(s[i])) ==> |Filter(keep, s)| <= |s| - from
  {
    if from < |s| {
      FilterSplit(keep, s[..|s| - 1], from);
    } else if forall i :: 0 <= i < from ==> !keep(s[i]) {
      FilterNone(keep, s);
    }
  }

  /** Fewer than `limit` count exactly when there are fewer, or the one `limit` ago counts no more. */
  lemma RoomIff(w: Window, history: seq<real>, now: real, limit: nat)
    requires Ordered(history, now) && limit >= 1
    ensures |Recent(w, history, now)| < limit
            <==> |history| < limit || !Covers(w, history[|history| - limit], now)
  {
    if |history| >= limit {
      var from := |history| - limit;
      FilterSplit(Counting(w, now), history, from);
      FilterSplit(Counting(w, now), history, from + 1);
    }
  }

  /** So of limit + 1 instants the first counts no more when the last enters. */
  lemma LimitApart(w: Window, history: seq<real>, limit: nat, now: real, i: nat)
    requires Ordered(history, now) && Admissible(w, history, limit) && limit >= 1 && i + limit < |history|
    ensures !Covers(w, history[i], history[i + limit])
  {
    var k := i + limit;
    assert Entered(w, history, k, limit);
    RoomIff(w, history[..k], history[k], limit);
  }
}
