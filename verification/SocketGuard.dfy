/** The per-connection guards of the user socket: oversized messages are ignored, and at most ten
    messages a second are let through. */
module SocketGuard {
  import opened Seqs
  import opened Windows

  const MAX_WS_MESSAGE_SIZE: nat := 4096
  const WS_MSG_RATE_LIMIT: nat := 10
  const SECOND := Window(1.0, false)

  datatype Message = Message(size: nat, at: real)

  /** Whether the message gets through after the given accepted ones: the rule by full history. */
  predicate Admits(accepted: seq<real>, m: Message) {
    m.size <= MAX_WS_MESSAGE_SIZE && |Recent(SECOND, accepted, m.at)| < WS_MSG_RATE_LIMIT
  }

  /** When the messages that got through arrived. */
  function Accepted(messages: seq<Message>): seq<real> {
    if messages == [] then []
    else
      var before, m := Accepted(messages[..|messages| - 1]), messages[|messages| - 1];
      if Admits(before, m) then before + [m.at] else before
  }

  ghost predicate Monotone(messages: seq<Message>, now: real) {
    && (forall i, j :: 0 <= i < j < |messages| ==> messages[i].at <= messages[j].at)
    && (forall i :: 0 <= i < |messages| ==> messages[i].at <= now)
  }

  class Connection {
    var msgTimestamps: seq<real>
    /** Every message received so far. */
    ghost var received: seq<Message>
    /** The clock of the last look at the rate. */
    ghost var looked: real

    ghost predicate Valid()
      reads this
    {
      msgTimestamps == Recent(SECOND, Accepted(received), looked)
    }

    constructor ()
      ensures Valid() && received == []
    {
      msgTimestamps, received, looked := [], [], 0.0;
    }

    /** One message. The pruned list decides exactly as the full history would. */
    method Receive(m: Message) returns (admitted: bool)
      requires Valid() && looked <= m.at
      modifies this
      ensures Valid() && received == old(received) + [m] && looked <= m.at
      ensures admitted <==> Admits(Accepted(old(received)), m)
    {
      received := received + [m];
      assert received[..|received| - 1] == old(received);
      if m.size > MAX_WS_MESSAGE_SIZE {
        return false;
      }
      var now := m.at;
      PruneAgain(SECOND, Accepted(old(received)), looked, now);
      msgTimestamps := Filter(Counting(SECOND, now), msgTimestamps);
      looked := now;
      if |msgTimestamps| >= WS_MSG_RATE_LIMIT {
        return false;
      }
      RecentSnoc(SECOND, Accepted(old(received)), now);
      msgTimestamps := msgTimestamps + [now];
      return true;
    }
  }

  lemma {:induction false} AcceptedSound(messages: seq<Message>, now: real)
    requires Monotone(messages, now)
    ensures Ordered(Accepted(messages), now)
    ensures Admissible(SECOND, Accepted(messages), WS_MSG_RATE_LIMIT)
  {
    if messages != [] {
      var init, m := messages[..|messages| - 1], messages[|messages| - 1];
      AcceptedSound(init, m.at);
      if Admits(Accepted(init), m) {
        AdmissibleSnoc(SECOND, Accepted(init), m.at, WS_MSG_RATE_LIMIT);
      }
    }
  }

  /** However the messages come, no second anywhere (start included, end excluded) lets more than
      ten through. */
  lemma AtMostTenASecond(messages: seq<Message>, now: real, from: real)
    requires Monotone(messages, now)
    ensures |Inside(SECOND, Accepted(messages), from)| <= WS_MSG_RATE_LIMIT
  {
    AcceptedSound(messages, now);
    NoWindowOverfull(SECOND, Accepted(messages), WS_MSG_RATE_LIMIT, now, from);
  }

  /** And a message of legal size is dropped exactly when ten got through in the second before it. */
  lemma DroppedIffTen(messages: seq<Message>, m: Message)
    requires Monotone(messages, m.at) && m.size <= MAX_WS_MESSAGE_SIZE
    ensures !Admits(Accepted(messages), m) <==> |Recent(SECOND, Accepted(messages), m.at)| == WS_MSG_RATE_LIMIT
  {
    AcceptedSound(messages, m.at);
    RecentAtMost(SECOND, Accepted(messages), WS_MSG_RATE_LIMIT, m.at);
  }

  /** What counts now never exceeds the limit. */
  lemma RecentAtMost(w: Window, history: seq<real>, limit: nat, now: real)
    requires Ordered(history, now) && Admissible(w, history, limit)
    ensures |Recent(w, history, now)| <= limit
  {
    if history != [] {
      var init, last := history[..|history| - 1], history[|history| - 1];
      AdmissibleInit(w, history, limit);
      PruneAgain(w, init, last, now);
    }
  }

  // ---- In messages and seconds ---------------------------------------------------------------

  /** A message gets through exactly when it has at most 4096 characters and the tenth before it, if
      there was one, got through a second ago or more. */
  lemma AdmitsIff(messages: seq<Message>, m: Message)
    requires Monotone(messages, m.at)
    ensures var accepted := Accepted(messages);
            Admits(accepted, m)
            <==> m.size <= 4096 && (|accepted| < 10 || m.at - accepted[|accepted| - 10] >= 1.0)
  {
    AcceptedSound(messages, m.at);
    RoomIff(SECOND, Accepted(messages), m.at, 10);
  }

  /** Of eleven messages that got through, the first and the last are a second apart. */
  lemma ElevenTakeASecond(messages: seq<Message>, now: real, i: nat)
    requires Monotone(messages, now) && i + 10 < |Accepted(messages)|
    ensures Accepted(messages)[i + 10] - Accepted(messages)[i] >= 1.0
  {
    AcceptedSound(messages, now);
    LimitApart(SECOND, Accepted(messages), 10, now, i);
  }
}
