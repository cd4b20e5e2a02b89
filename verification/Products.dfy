/** Product creation with client request keys: a replayed submission answers with the product that
    the first one made. */
module Products {
  import opened Records

  /** What was sent: the key, and whether its category and vendor can be resolved. */
  datatype Submission = Submission(key: Option<string>, name: string, seller: UserId, resolves: Outcome)

  datatype Row = Row(key: Option<string>, name: string, seller: UserId)

  datatype Reply = Created(row: nat) | Replayed(row: nat) | Rejected(outcome: Outcome)

  predicate Succeeds(r: Reply) {
    !r.Rejected?
  }

  /** The row with the key, if there is one. */
  function Lookup(rows: seq<Row>, key: string): (r: Option<nat>)
    ensures r.Some? ==> r.value < |rows| && rows[r.value].key == Some(key)
    ensures r.None? ==> forall i :: 0 <= i < |rows| ==> rows[i].key != Some(key)
  {
    if rows == [] then None
    else
      var before := Lookup(rows[..|rows| - 1], key);
      if before.Some? then before
      else if rows[|rows| - 1].key == Some(key) then Some(|rows| - 1)
      else
        assert forall i :: 0 <= i < |rows| - 1 ==> rows[i] == rows[..|rows| - 1][i];
        None
  }

  /** An empty key is not looked up, but it is stored, under a unique index. */
  function Submit(rows: seq<Row>, s: Submission): (seq<Row>, Reply) {
    if s.key.Some? && s.key.value != "" && Lookup(rows, s.key.value).Some?
    then (rows, Replayed(Lookup(rows, s.key.value).value))
    else if s.resolves != Ok then (rows, Rejected(s.resolves))
    else if s.key == Some("") && Lookup(rows, "").Some? then (rows, Rejected(ServerError))
    else (rows + [Row(s.key, s.name, s.seller)], Created(|rows|))
  }

  class Catalog {
    var rows: seq<Row>

    constructor ()
      ensures rows == []
    {
      rows := [];
    }

    method CreateProduct(s: Submission) returns (reply: Reply)
      modifies this
      ensures (rows, reply) == Submit(old(rows), s)
    {
      if s.key.Some? && s.key.value != "" {
        var existing := Lookup(rows, s.key.value);
        if existing.Some? {
          return Replayed(existing.value);
        }
      }
      if s.resolves != Ok {
        return Rejected(s.resolves);
      }
      if s.key == Some("") {
        var taken := Lookup(rows, "");
        if taken.Some? {
          return Rejected(ServerError);
        }
      }
      rows := rows + [Row(s.key, s.name, s.seller)];
      return Created(|rows| - 1);
    }
  }

  // ---- Runs ----------------------------------------------------------------------------------

  function Rows(subs: seq<Submission>): seq<Row> {
    if subs == [] then [] else Submit(Rows(subs[..|subs| - 1]), subs[|subs| - 1]).0
  }

  function ReplyTo(subs: seq<Submission>, i: nat): Reply
    requires i < |subs|
  {
    Submit(Rows(subs[..i]), subs[i]).1
  }

  /** The distinct keys among the requests that succeeded. */
  function KeysServed(subs: seq<Submission>): set<string> {
    if subs == [] then {}
    else
      var n := |subs| - 1;
      KeysServed(subs[..n]) + Served(subs[n], ReplyTo(subs, n))
  }

  function KeylessServed(subs: seq<Submission>): nat {
    if subs == [] then 0
    else
      var n := |subs| - 1;
      KeylessServed(subs[..n]) + if subs[n].key.None? && Succeeds(ReplyTo(subs, n)) then 1 else 0
  }

  ghost predicate KeysUnique(rows: seq<Row>) {
    forall i, j :: 0 <= i < j < |rows| && rows[i].key.Some? ==> rows[i].key != rows[j].key
  }

  function KeysIn(rows: seq<Row>): set<string> {
    set i | 0 <= i < |rows| && rows[i].key.Some? :: rows[i].key.value
  }

  lemma KeysInSnoc(rows: seq<Row>, r: Row)
    ensures KeysIn(rows + [r]) == KeysIn(rows) + if r.key.Some? then {r.key.value} else {}
  {
    var more := rows + [r];
    assert more[|rows|] == r;
    forall k | k in KeysIn(rows)
      ensures k in KeysIn(more)
    {
      var i :| 0 <= i < |rows| && rows[i].key == Some(k);
      assert more[i].key == Some(k);
    }
  }

  /** A submission is replayed exactly when it has a key, not empty, that a row has; else it creates a
      row exactly when category and vendor resolve and its key, if it is empty, is not taken. */
  lemma SubmitLaw(rows: seq<Row>, s: Submission)
    ensures var (after, reply) := Submit(rows, s);
            var known := exists i :: 0 <= i < |rows| && s.key.Some? && rows[i].key == s.key;
            && (reply.Replayed? <==> known && s.key != Some(""))
            && (reply.Replayed? ==> reply.row < |rows| && rows[reply.row].key == s.key && after == rows)
            && (reply.Created? <==> !known && s.resolves == Ok)
            && (reply.Created? ==> reply.row == |rows| && after == rows + [Row(s.key, s.name, s.seller)])
            && (reply.Rejected? ==> after == rows && reply.outcome == if s.resolves != Ok then s.resolves else ServerError)
  {
  }

  /** One submission: a success leaves its key in the table; a new row has a new key. */
  lemma SubmitKeepsKeys(rows: seq<Row>, s: Submission)
    requires KeysUnique(rows)
    ensures var (after, reply) := Submit(rows, s);
            && KeysUnique(after)
            && (after != rows ==> reply == Created(|rows|) && after == rows + [Row(s.key, s.name, s.seller)]
                                  && (s.key.Some? ==> s.key.value !in KeysIn(rows)))
            && (after == rows && Succeeds(reply) ==> s.key.Some? && s.key.value in KeysIn(rows))
  {
  }

  /** The key a successful submission serves. */
  function Served(s: Submission, reply: Reply): set<string> {
    if s.key.Some? && Succeeds(reply) then {s.key.value} else {}
  }

  /** What a submission adds to the keys in the table, it adds to the rows, and a keyless success
      adds one row more. */
  lemma SubmitCounts(rows: seq<Row>, s: Submission)
    requires KeysUnique(rows)
    ensures var (after, reply) := Submit(rows, s);
            && KeysIn(after) == KeysIn(rows) + Served(s, reply)
            && |after| - |KeysIn(after)| == |rows| - |KeysIn(rows)| + if s.key.None? && Succeeds(reply) then 1 else 0
  {
    var (after, reply) := Submit(rows, s);
    SubmitKeepsKeys(rows, s);
    if after == rows {
      assert KeysIn(rows) + Served(s, reply) == KeysIn(rows);
    } else {
      KeysInSnoc(rows, Row(s.key, s.name, s.seller));
      assert Served(s, reply) !! KeysIn(rows);
    }
  }

  /** Over any run of creations, the number of rows is the number of distinct keys that succeeded
      plus the number of keyless successes; the served keys are those in the table, once each. */
  lemma {:induction false} RowsCountSubmissions(subs: seq<Submission>)
    ensures |Rows(subs)| == |KeysServed(subs)| + KeylessServed(subs)
    ensures KeysUnique(Rows(subs))
    ensures KeysServed(subs) == KeysIn(Rows(subs))
  {
    if subs == [] {
      assert KeysIn([]) == {};
    } else {
      var n := |subs| - 1;
      RowsCountSubmissions(subs[..n]);
      SubmitKeepsKeys(Rows(subs[..n]), subs[n]);
      SubmitCounts(Rows(subs[..n]), subs[n]);
    }
  }

  lemma {:induction false} RowsGrow(subs: seq<Submission>, n: nat)
    requires n <= |subs|
    ensures Rows(subs[..n]) <= Rows(subs)
  {
    if n < |subs| {
      RowsGrow(subs[..|subs| - 1], n);
      assert subs[..|subs| - 1][..n] == subs[..n];
    } else {
      assert subs[..n] == subs;
    }
  }

  lemma AnswersWithItsKey(subs: seq<Submission>, i: nat)
    requires i < |subs| && Succeeds(ReplyTo(subs, i))
    ensures ReplyTo(subs, i).row < |Rows(subs)| && Rows(subs)[ReplyTo(subs, i).row].key == subs[i].key
  {
    RowsGrow(subs, i + 1);
    assert subs[..i + 1][..i] == subs[..i];
  }

  /** Every success under a key answers with the same row: the first creates it, each later one
      replays it. */
  lemma ReplayAnswersFirst(subs: seq<Submission>, i: nat, j: nat)
    requires i < j < |subs| && subs[i].key.Some? && subs[j].key == subs[i].key
    requires Succeeds(ReplyTo(subs, i)) && Succeeds(ReplyTo(subs, j))
    ensures ReplyTo(subs, j) == Replayed(ReplyTo(subs, i).row)
  {
    RowsCountSubmissions(subs);
    AnswersWithItsKey(subs, i);
    AnswersWithItsKey(subs, j);
    assert subs[..j][..i] == subs[..i];
    AnswersWithItsKey(subs[..j], i);
  }
}
