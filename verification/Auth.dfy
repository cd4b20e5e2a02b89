/** The counters and codes of login and password reset, with Redis up. Each key of an email lives in
    a table of its own; the clock is an input, and a request sees one instant unless it says more. */
module Auth {
  import opened Throttle
  import opened Records

  const LOGIN_LIMIT: nat := 5
  const LOGIN_TTL := 900.0
  const REQUEST_LIMIT: nat := 3
  const REQUEST_TTL := 3600.0
  const ATTEMPT_LIMIT: nat := 5
  const ATTEMPT_TTL := 3600.0
  const CODE_TTL := 600.0

  datatype Code = NoCode | Code(text: string, expires: real)

  /** The reset keys of one email. */
  datatype Keys = Keys(code: Code, attempts: Counter, requests: Counter)

  datatype Reply =
    | TooMany               // 429 before anything is looked at
    | Sent                  // a code was issued
    | Unknown               // the same answer without a code: no such account
    | Wrong(remaining: int) // 400, with the attempts the message promises
    | LockedOut             // 429, the code is gone
    | Invalid               // 400, no live code
    | NoUser                // 404
    | Changed               // the password is updated

  datatype Request =
    | AskCode(now: real, known: bool, newCode: string)
    | Guess(now: real, text: string, known: bool)

  function StoredCode(c: Code, now: real): Code {
    if c.Code? && now < c.expires then c else NoCode
  }

  function Serve(k: Keys, r: Request): (Keys, Reply) {
    match r
    case AskCode(now, known, newCode) =>
      if Live(k.requests, now) >= REQUEST_LIMIT then (k, TooMany)
      else
        var counted := k.(requests := Bump(k.requests, now, REQUEST_TTL));
        if !known then (counted, Unknown)
        else (counted.(code := Code(newCode, now + CODE_TTL), attempts := Absent), Sent)
    case Guess(now, text, known) =>
      var attempts := Live(k.attempts, now);
      var stored := StoredCode(k.code, now);
      if attempts >= ATTEMPT_LIMIT then (k, TooMany)
      else if stored.NoCode? then (k, Invalid)
      else if stored.text != text then
        var counted := k.(attempts := Bump(k.attempts, now, ATTEMPT_TTL));
        if 4 - attempts > 0 then (counted, Wrong(4 - attempts)) else (counted.(code := NoCode), LockedOut)
      else if !known then (k, NoUser)
      else (Keys(NoCode, Absent, Absent), Changed)
  }

  // ---- The routes ----------------------------------------------------------------------------

  class Redis {
    var loginFails: map<string, Counter>
    var codes: map<string, Code>
    var attempts: map<string, Counter>
    var requests: map<string, Counter>

    function LoginCounter(email: string): Counter
      reads this
    {
      if email in loginFails then loginFails[email] else Absent
    }

    function ResetKeys(email: string): Keys
      reads this
    {
      Keys(if email in codes then codes[email] else NoCode,
           if email in attempts then attempts[email] else Absent,
           if email in requests then requests[email] else Absent)
    }

    constructor ()
      ensures forall email :: LoginCounter(email) == Absent && ResetKeys(email) == Keys(NoCode, Absent, Absent)
    {
      loginFails, codes, attempts, requests := map[], map[], map[], map[];
    }

    /** A login, looked at when it is `checked` and decided by the password at `decided`. */
    method Login(email: string, checked: real, decided: real, passwordOk: bool) returns (verdict: Verdict)
      modifies `loginFails
      ensures (LoginCounter(email), verdict)
              == Step(old(LoginCounter(email)), LOGIN_LIMIT, LOGIN_TTL, Attempt(checked, decided, passwordOk))
      ensures forall other :: other != email ==> LoginCounter(other) == old(LoginCounter(other))
    {
      var failCount := Live(LoginCounter(email), checked);
      if failCount >= 5 {
        return Blocked;
      }
      if !passwordOk {
        loginFails := loginFails[email := Bump(LoginCounter(email), decided, 900.0)];
        return Counted;
      }
      loginFails := loginFails - {email};
      return Succeeded;
    }

    method ForgotPasswordRequest(email: string, now: real, known: bool, newCode: string) returns (reply: Reply)
      modifies `codes, `attempts, `requests
      ensures (ResetKeys(email), reply) == Serve(old(ResetKeys(email)), AskCode(now, known, newCode))
      ensures forall other :: other != email ==> ResetKeys(other) == old(ResetKeys(other))
    {
      var keys := ResetKeys(email);
      var requestCount := Live(keys.requests, now);
      if requestCount >= 3 {
        return TooMany;
      }
      requests := requests[email := Bump(keys.requests, now, 3600.0)];
      if !known {
        return Unknown;
      }
      codes := codes[email := Code(newCode, now + 600.0)];
      attempts := attempts - {email};
      return Sent;
    }

    method ForgotPasswordReset(email: string, now: real, code: string, known: bool) returns (reply: Reply)
      modifies `codes, `attempts, `requests
      ensures (ResetKeys(email), reply) == Serve(old(ResetKeys(email)), Guess(now, code, known))
      ensures forall other :: other != email ==> ResetKeys(other) == old(ResetKeys(other))
    {
      var keys := ResetKeys(email);
      var tried := Live(keys.attempts, now);
      if tried >= 5 {
        return TooMany;
      }
      var storedCode := StoredCode(keys.code, now);
      if storedCode.NoCode? || storedCode.text != code {
        if storedCode.Code? {
          attempts := attempts[email := Bump(keys.attempts, now, 3600.0)];
          var remaining := 4 - tried;
          if remaining > 0 {
            return Wrong(remaining);
          }
          codes := codes - {email};
          return LockedOut;
        }
        return Invalid;
      }
      if !known {
        return NoUser;
      }
      codes := codes - {email};
      attempts := attempts - {email};
      requests := requests - {email};
      return Changed;
    }
  }

  // ---- Logins --------------------------------------------------------------------------------

  /** Over any run of logins for one email, six failures with no success between them include two
      neighbours at least 900 seconds apart. */
  lemma SixFailuresTakeTime(events: seq<Event>, now: real, i: nat)
    requires InTime(events, now)
    requires i + 5 < |Streak(LOGIN_LIMIT, LOGIN_TTL, events)|
    ensures var fails := Streak(LOGIN_LIMIT, LOGIN_TTL, events);
            exists j :: i <= j < i + 5 && fails[j + 1] - fails[j] >= 900.0
  {
    FailuresKeepTheirDistance(LOGIN_LIMIT, LOGIN_TTL, events, now, i);
  }

  // ---- Guesses at a code ---------------------------------------------------------------------

  function RunKeys(requests: seq<Request>): Keys {
    if requests == [] then Keys(NoCode, Absent, Absent)
    else Serve(RunKeys(requests[..|requests| - 1]), requests[|requests| - 1]).0
  }

  function LastReply(requests: seq<Request>): Reply
    requires requests != []
  {
    Serve(RunKeys(requests[..|requests| - 1]), requests[|requests| - 1]).1
  }

  /** The wrong guesses at the code that was issued last. */
  function WrongGuesses(requests: seq<Request>): nat {
    if requests == [] then 0
    else
      match LastReply(requests)
      case Sent => 0
      case Wrong(_) => WrongGuesses(requests[..|requests| - 1]) + 1
      case LockedOut => WrongGuesses(requests[..|requests| - 1]) + 1
      case _ => WrongGuesses(requests[..|requests| - 1])
  }

  ghost predicate Chronological(requests: seq<Request>) {
    forall i, j :: 0 <= i < j < |requests| ==> requests[i].now <= requests[j].now
  }

  /** While the code is there, the attempt counter is the number of wrong guesses at it, and lives
      longer than the code. */
  predicate CounterTracks(k: Keys, wrong: nat) {
    && wrong <= 5
    && (k.code.Code? ==>
          && wrong <= 4
          && (if wrong == 0 then k.attempts == Absent
              else k.attempts.Counter? && k.attempts.count == wrong && k.attempts.expires > k.code.expires))
  }

  /** A code was issued at most ten minutes before it expires, so later guesses renew the counter
      past it. */
  predicate IssuedBy(k: Keys, now: real) {
    k.code.Code? ==> k.code.expires <= now + CODE_TTL
  }

  lemma {:induction false} GuessesOverRuns(requests: seq<Request>)
    requires Chronological(requests)
    ensures CounterTracks(RunKeys(requests), WrongGuesses(requests))
    ensures requests != [] ==> IssuedBy(RunKeys(requests), requests[|requests| - 1].now)
  {
    if requests != [] {
      var init, r := requests[..|requests| - 1], requests[|requests| - 1];
      GuessesOverRuns(init);
      assert init != [] ==> init[|init| - 1].now <= r.now;
    }
  }

  /** In every timed run, an issued code admits at most five wrong guesses: the fifth, and none
      before it, deletes the code; and the attempts the reply promises are those that are left. */
  lemma FifthGuessDeletes(requests: seq<Request>)
    requires Chronological(requests)
    ensures WrongGuesses(requests) <= 5
    ensures requests != [] ==>
              match LastReply(requests)
              case Wrong(remaining) =>
                remaining == 5 - WrongGuesses(requests) && remaining >= 1 && RunKeys(requests).code.Code?
              case LockedOut => WrongGuesses(requests) == 5 && RunKeys(requests).code.NoCode?
              case _ => true
    ensures WrongGuesses(requests) == 5 ==> RunKeys(requests).code.NoCode?
  {
    GuessesOverRuns(requests);
    if requests != [] {
      var init, r := requests[..|requests| - 1], requests[|requests| - 1];
      GuessesOverRuns(init);
    }
  }

  /** In every timed run, a guess changes the password exactly when a code is live, it is the code,
      and the account exists: wrong guesses never lock out the right one while the code lasts. And a
      code works once. */
  lemma RightGuessWorks(requests: seq<Request>, now: real, text: string, known: bool)
    requires Chronological(requests)
    ensures var k := RunKeys(requests);
            var (after, reply) := Serve(k, Guess(now, text, known));
            && (reply == Changed <==> k.code.Code? && now < k.code.expires && k.code.text == text && known)
            && (reply == Changed ==> forall t, x, u :: Serve(after, Guess(t, x, u)).1 == Invalid)
  {
  }

  // ---- Requests for a code -------------------------------------------------------------------

  /** What the run means to the request counter: every request for a code counts, known account or
      not, and a changed password clears it. */
  function RequestEvents(requests: seq<Request>): seq<Event> {
    if requests == [] then []
    else
      var before, r := RequestEvents(requests[..|requests| - 1]), requests[|requests| - 1];
      if r.AskCode? then before + [Attempt(r.now, r.now, false)]
      else if LastReply(requests) == Changed then before + [Clear]
      else before
  }

  lemma InTimeSnoc(events: seq<Event>, before: real, now: real)
    requires InTime(events, before) && before <= now
    ensures InTime(events, now) && InTime(events + [Clear], now) && InTime(events + [Attempt(now, now, false)], now)
  {
  }

  /** One request does to the request counter what its event does. */
  lemma ServeIsStep(k: Keys, r: Request)
    ensures var (after, reply) := Serve(k, r);
            && (r.AskCode? ==>
                  after.requests == Step(k.requests, REQUEST_LIMIT, REQUEST_TTL, Attempt(r.now, r.now, false)).0)
            && (r.Guess? ==> after.requests == if reply == Changed then Absent else k.requests)
  {
  }

  lemma RunSnoc(limit: nat, ttl: real, events: seq<Event>, e: Event)
    ensures Run(limit, ttl, events + [e]) == Step(Run(limit, ttl, events), limit, ttl, e).0
  {
  }

  /** The request counter is the throttle on those events. */
  lemma {:induction false} RequestsAreThrottled(requests: seq<Request>)
    ensures RunKeys(requests).requests == Run(REQUEST_LIMIT, REQUEST_TTL, RequestEvents(requests))
  {
    if requests != [] {
      var init, r := requests[..|requests| - 1], requests[|requests| - 1];
      RequestsAreThrottled(init);
      ServeIsStep(RunKeys(init), r);
      RunSnoc(REQUEST_LIMIT, REQUEST_TTL, RequestEvents(init), Attempt(r.now, r.now, false));
      RunSnoc(REQUEST_LIMIT, REQUEST_TTL, RequestEvents(init), Clear);
    }
  }

  lemma {:induction false} RequestEventsInTime(requests: seq<Request>, now: real)
    requires Chronological(requests) && (requests != [] ==> requests[|requests| - 1].now <= now)
    ensures InTime(RequestEvents(requests), now)
  {
    if requests != [] {
      var init, r := requests[..|requests| - 1], requests[|requests| - 1];
      RequestEventsInTime(init, r.now);
      InTimeSnoc(RequestEvents(init), r.now, r.now);
      InTimeSnoc(RequestEvents(requests), r.now, now);
    }
  }

  /** Over any timed run for one email, four counted requests with no changed password between them
      include two neighbours at least an hour apart. */
  lemma FourRequestsTakeTime(requests: seq<Request>, i: nat)
    requires Chronological(requests)
    requires i + 3 < |Streak(REQUEST_LIMIT, REQUEST_TTL, RequestEvents(requests))|
    ensures var asked := Streak(REQUEST_LIMIT, REQUEST_TTL, RequestEvents(requests));
            exists j :: i <= j < i + 3 && asked[j + 1] - asked[j] >= 3600.0
  {
    var now := if requests == [] then 0.0 else requests[|requests| - 1].now;
    RequestEventsInTime(requests, now);
    FailuresKeepTheirDistance(REQUEST_LIMIT, REQUEST_TTL, RequestEvents(requests), now, i);
  }

  // ---- Who is let through --------------------------------------------------------------------

  /** A login is refused unchecked exactly when five failures came before it with no success, each
      within a quarter of an hour of the one before, and the login too. */
  lemma LoginBlockedIff(events: seq<Event>, checked: real, decided: real, passwordOk: bool)
    requires InTime(events, checked)
    ensures Step(Run(LOGIN_LIMIT, LOGIN_TTL, events), LOGIN_LIMIT, LOGIN_TTL, Attempt(checked, decided, passwordOk)).1
              == Blocked
            <==> Crowded(Streak(LOGIN_LIMIT, LOGIN_TTL, events), 5, 900.0, checked)
  {
    BlockedIff(LOGIN_LIMIT, LOGIN_TTL, events, Attempt(checked, decided, passwordOk));
  }

  lemma AskReplies(k: Keys, now: real, known: bool, newCode: string)
    ensures var (after, reply) := Serve(k, AskCode(now, known, newCode));
            && (reply == TooMany <==> Live(k.requests, now) >= 3)
            && (reply == Sent <==> reply != TooMany && known)
            && after.code == if reply == Sent then Code(newCode, now + 600.0) else k.code
  {
  }

  /** A code is sent exactly to a known account, unless three were asked for with no changed password,
      each within an hour of the one before, and this request too. */
  lemma SentIff(requests: seq<Request>, now: real, known: bool, newCode: string)
    requires Chronological(requests) && (requests != [] ==> requests[|requests| - 1].now <= now)
    ensures var asked := Streak(REQUEST_LIMIT, REQUEST_TTL, RequestEvents(requests));
            var (after, reply) := Serve(RunKeys(requests), AskCode(now, known, newCode));
            && (reply == Sent <==> known && !Crowded(asked, 3, 3600.0, now))
            && after.code == if reply == Sent then Code(newCode, now + 600.0) else RunKeys(requests).code
  {
    AskReplies(RunKeys(requests), now, known, newCode);
    RequestsAreThrottled(requests);
    RequestEventsInTime(requests, now);
    BlockedIff(REQUEST_LIMIT, REQUEST_TTL, RequestEvents(requests), Attempt(now, now, false));
    BlockedIsLive(REQUEST_LIMIT, REQUEST_TTL, RequestEvents(requests), now);
  }

  lemma BlockedIsLive(limit: nat, ttl: real, events: seq<Event>, now: real)
    ensures Step(Run(limit, ttl, events), limit, ttl, Attempt(now, now, false)).1 == Blocked
            <==> Live(Run(limit, ttl, events), now) >= limit
  {
  }

  /** The request that issued the last code. */
  function LastSent(requests: seq<Request>): Option<nat> {
    if requests == [] then None
    else if LastReply(requests) == Sent then Some(|requests| - 1)
    else LastSent(requests[..|requests| - 1])
  }

  /** Whether that code has been used, or guessed wrong five times. */
  predicate Spent(requests: seq<Request>) {
    requests != [] &&
    match LastReply(requests)
    case Sent => false
    case Changed => true
    case LockedOut => true
    case _ => Spent(requests[..|requests| - 1])
  }

  /** In every run the stored code is the one issued last, for ten minutes from then; and one is stored
      exactly when that one is not spent. */
  lemma {:induction false} CodeIsLastSent(requests: seq<Request>)
    ensures var i, code := LastSent(requests), RunKeys(requests).code;
            && (i.Some? ==> i.value < |requests| && requests[i.value].AskCode? && requests[i.value].known)
            && code == if i.Some? && !Spent(requests)
                       then Code(requests[i.value].newCode, requests[i.value].now + 600.0) else NoCode
  {
    if requests != [] {
      CodeIsLastSent(requests[..|requests| - 1]);
    }
  }

  /** In every timed run, what a guess is answered: by whether a code is live, whether it is the code,
      and how many were wrong before. */
  lemma GuessReplies(requests: seq<Request>, now: real, text: string, known: bool)
    requires Chronological(requests) && (requests != [] ==> requests[|requests| - 1].now <= now)
    ensures var code, wrong := RunKeys(requests).code, WrongGuesses(requests);
            var reply := Serve(RunKeys(requests), Guess(now, text, known)).1;
            if code.NoCode? || now >= code.expires then reply == Invalid || reply == TooMany
            else if code.text == text then reply == if known then Changed else NoUser
            else reply == if wrong == 4 then LockedOut else Wrong(4 - wrong)
  {
    GuessesOverRuns(requests);
  }
}
