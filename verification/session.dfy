/** The front end's token refresh: many requests, one refresh call at a time, one retry each. */
module Session {
  import opened Models
  import opened Totals

  datatype Verdict = Pending | Decided(ok: bool)

  /** Where a request stands; a wait on no flight is the promise that is false from the start. */
  datatype Phase = First | Waiting(flight: Option<int>) | Retried | Answered | Rejected

  /** The flight and verdict are recorded when the request resumes; they only serve the properties below. */
  datatype Request = Request(authUrl: bool, phase: Phase, sends: nat, flight: Option<int>, verdict: Option<bool>)

  datatype Tokens = Tokens(access: Option<string>, refresh: Option<string>)

  datatype Client = Client(
    requests: map<int, Request>, flights: map<int, Verdict>, inFlight: Option<int>, nextFlight: int, tokens: Tokens)

  datatype Event =
    | Send(id: int, authUrl: bool)
    | Answer(id: int, unauthorized: bool, wrongPassword: bool)
    | Settle(flight: int, ok: bool, access: string, refresh: string)
    | Finally(flight: int)
    | Resume(id: int)
    | Reanswer(id: int)
    | Login(tokens: Tokens)

  // ---------------------------------------------------------------- the machine

  predicate InPhase(s: Client, id: int, phase: Phase) {
    id in s.requests && s.requests[id].phase == phase
  }

  /** Waiters hang on the promise that finally returns, so they resume once the flight is decided and cleared. */
  predicate Ready(s: Client, id: int) {
    && id in s.requests && s.requests[id].phase.Waiting?
    && (s.requests[id].phase.flight.Some? ==>
          var f := s.requests[id].phase.flight.value; f in s.flights && s.flights[f].Decided? && s.inFlight != Some(f))
  }

  predicate Enabled(s: Client, e: Event) {
    match e
    case Send(id, _) => id !in s.requests
    case Answer(id, _, _) => InPhase(s, id, First)
    case Settle(f, _, _, _) => f in s.flights && s.flights[f] == Pending
    case Finally(f) => s.inFlight == Some(f) && f in s.flights && s.flights[f].Decided?
    case Resume(id) => Ready(s, id)
    case Reanswer(id) => InPhase(s, id, Retried)
    case Login(_) => true
  }

  function Move(s: Client, id: int, r: Request): Client {
    s.(requests := s.requests[id := r])
  }

  /** Join the flight in progress, give up without a refresh token, or start a flight. */
  function Refresh(s: Client): (Client, Option<int>) {
    if s.inFlight.Some? then (s, s.inFlight)
    else if s.tokens.refresh.None? then (s, None)
    else (s.(flights := s.flights[s.nextFlight := Pending], inFlight := Some(s.nextFlight),
             nextFlight := s.nextFlight + 1),
          Some(s.nextFlight))
  }

  function VerdictFor(s: Client, flight: Option<int>): bool {
    flight.Some? && flight.value in s.flights && s.flights[flight.value] == Decided(true)
  }

  function Next(s: Client, e: Event): Client
    requires Enabled(s, e)
  {
    match e
    case Send(id, authUrl) => Move(s, id, Request(authUrl, First, 1, None, None))
    case Answer(id, unauthorized, wrongPassword) =>
      var r := s.requests[id];
      if !unauthorized || r.authUrl || wrongPassword then Move(s, id, r.(phase := Answered))
      else
        var (s1, flight) := Refresh(s);
        Move(s1, id, r.(phase := Waiting(flight)))
    case Settle(f, ok, access, refresh) =>
      s.(flights := s.flights[f := Decided(ok)], tokens := if ok then Tokens(Some(access), Some(refresh)) else s.tokens)
    case Finally(_) => s.(inFlight := None)
    case Resume(id) =>
      var r := s.requests[id];
      var flight := r.phase.flight;
      var ok := VerdictFor(s, flight);
      var r1 := r.(flight := flight, verdict := Some(ok));
      if ok then Move(s, id, r1.(phase := Retried, sends := r.sends + 1))
      else Move(s.(tokens := Tokens(None, None)), id, r1.(phase := Rejected))
    case Reanswer(id) => Move(s, id, s.requests[id].(phase := Answered))
    case Login(tokens) => s.(tokens := tokens)
  }

  ghost predicate IsRun(s: Client, es: seq<Event>)
    decreases |es|
  {
    es == [] || (Enabled(s, es[0]) && IsRun(Next(s, es[0]), es[1..]))
  }

  ghost function Run(s: Client, es: seq<Event>): Client
    requires IsRun(s, es)
    decreases |es|
  {
    if es == [] then s else Run(Next(s, es[0]), es[1..])
  }

  function Fresh(tokens: Tokens): Client {
    Client(map[], map[], None, 0, tokens)
  }

  // ---------------------------------------------------------------- safety

  /** One request's promises. */
  ghost predicate RequestOk(s: Client, r: Request) {
    && (r.phase == First ==> r.sends == 1 && r.verdict.None?)
    && (r.phase.Waiting? ==> r.sends == 1 && r.verdict.None?)
    && (r.phase.Waiting? && r.phase.flight.Some? ==> r.phase.flight.value in s.flights)
    && (r.phase == Retried ==> r.sends == 2)
    && 1 <= r.sends <= 2
    && (r.verdict == Some(true) <==> r.sends == 2)
    && (r.phase == Rejected <==> r.verdict == Some(false))
    && (r.verdict.Some? ==> r.verdict.value == VerdictFor(s, r.flight))
    && (r.verdict == Some(false) && r.flight.Some? ==>
          r.flight.value in s.flights && s.flights[r.flight.value] == Decided(false))
    && (r.authUrl ==> r.sends == 1)
    && (r.authUrl ==> r.phase == First || r.phase == Answered)
  }

  /** Flights are numbered, and only the one in flight is pending. */
  ghost predicate FlightsOk(s: Client) {
    && (forall f :: f in s.flights ==> f < s.nextFlight && (s.flights[f] == Pending ==> s.inFlight == Some(f)))
    && (s.inFlight.Some? ==> s.inFlight.value in s.flights)
  }

  /** What every reachable client satisfies. */
  ghost predicate Inv(s: Client) {
    && FlightsOk(s)
    && (forall id :: id in s.requests ==> RequestOk(s, s.requests[id]))
  }

  lemma NextKeeps(s: Client, e: Event)
    requires Inv(s) && Enabled(s, e)
    ensures Inv(Next(s, e))
  {
    FlightsKeep(s, e);
    forall id | id in Next(s, e).requests
      ensures RequestOk(Next(s, e), Next(s, e).requests[id])
    {
      RequestKeeps(s, e, id);
    }
  }

  lemma FlightsKeep(s: Client, e: Event)
    requires FlightsOk(s) && Enabled(s, e)
    ensures FlightsOk(Next(s, e))
  {
  }

  lemma RequestKeeps(s: Client, e: Event, id: int)
    requires FlightsOk(s) && Enabled(s, e) && id in Next(s, e).requests
    requires forall k :: k in s.requests ==> RequestOk(s, s.requests[k])
    ensures RequestOk(Next(s, e), Next(s, e).requests[id])
  {
    assert id in s.requests ==> RequestOk(s, s.requests[id]);
  }

  lemma {:induction false} RunKeeps(s: Client, es: seq<Event>)
    requires Inv(s) && IsRun(s, es)
    ensures Inv(Run(s, es))
    decreases |es|
  {
    if es != [] {
      NextKeeps(s, es[0]);
      RunKeeps(Next(s, es[0]), es[1..]);
    }
  }

  /** Two requests that both resumed after waiting on one flight. */
  ghost predicate SawSameFlight(s: Client, a: int, b: int) {
    && a in s.requests && b in s.requests && s.requests[a].verdict.Some? && s.requests[b].verdict.Some?
    && s.requests[a].flight == s.requests[b].flight
  }

  /**
   * In every interleaving: at most one refresh call is outstanding; no request is sent more than twice, and a
   * second time exactly when it saw its flight succeed; it is rejected exactly when it saw its flight fail, or had
   * none; two requests that waited on one flight saw the same verdict.
   */
  lemma SingleFlight(tokens: Tokens, es: seq<Event>)
    requires IsRun(Fresh(tokens), es)
    ensures var s := Run(Fresh(tokens), es);
            && (forall f, g :: f in s.flights && g in s.flights && s.flights[f] == s.flights[g] == Pending ==> f == g)
            && (forall id :: id in s.requests ==> s.requests[id].sends <= 2)
            && (forall id :: id in s.requests && s.requests[id].sends == 2 ==>
                  s.requests[id].flight.Some? && s.requests[id].flight.value in s.flights &&
                  s.flights[s.requests[id].flight.value] == Decided(true))
            && (forall id :: id in s.requests ==>
                  && (s.requests[id].sends == 2 <==> s.requests[id].verdict == Some(true))
                  && (s.requests[id].phase == Rejected <==> s.requests[id].verdict == Some(false)))
            && (forall a, b :: SawSameFlight(s, a, b) ==> s.requests[a].verdict == s.requests[b].verdict)
  {
    RunKeeps(Fresh(tokens), es);
    var s := Run(Fresh(tokens), es);
    assert forall id :: id in s.requests ==> RequestOk(s, s.requests[id]);
  }

  // ---------------------------------------------------------------- what each reaction does

  /** The flight a waiting request hangs on came back with new tokens. */
  predicate FlightSucceeded(s: Client, id: int) {
    && id in s.requests && s.requests[id].phase.Waiting? && s.requests[id].phase.flight.Some?
    && s.requests[id].phase.flight.value in s.flights && s.flights[s.requests[id].phase.flight.value] == Decided(true)
  }

  /**
   * The session's tokens change only when a flight brings new ones, when somebody logs in, or when a request resumes
   * on a failed or absent flight, which signs the user out.
   */
  lemma TokensAfter(s: Client, e: Event)
    requires Enabled(s, e)
    ensures Next(s, e).tokens ==
              if e.Settle? && e.ok then Tokens(Some(e.access), Some(e.refresh))
              else if e.Login? then e.tokens
              else if e.Resume? && !FlightSucceeded(s, e.id) then Tokens(None, None)
              else s.tokens
  {
  }

  /**
   * A 401 outside the login pages that is not a wrong password makes the request wait: on the flight in progress, on
   * a new one if there is a refresh token, else on none. Any other first answer is final.
   */
  lemma AnswerDecides(s: Client, id: int, unauthorized: bool, wrongPassword: bool)
    requires Inv(s) && Enabled(s, Answer(id, unauthorized, wrongPassword))
    ensures var s' := Next(s, Answer(id, unauthorized, wrongPassword));
            && id in s'.requests && s'.requests == s.requests[id := s.requests[id].(phase := s'.requests[id].phase)]
            && (if unauthorized && !s.requests[id].authUrl && !wrongPassword then
                  && s'.requests[id].phase.Waiting?
                  && s'.requests[id].phase.flight == s'.inFlight
                  && (s.inFlight.Some? ==> s'.inFlight == s.inFlight && s'.flights == s.flights)
                  && (s.inFlight.None? && s.tokens.refresh.None? ==> s'.inFlight.None? && s'.flights == s.flights)
                  && (s.inFlight.None? && s.tokens.refresh.Some? ==>
                        s'.inFlight.Some? && s'.inFlight.value !in s.flights &&
                        s'.flights == s.flights[s'.inFlight.value := Pending])
                else s'.requests[id].phase == Answered && s'.flights == s.flights && s'.inFlight == s.inFlight)
  {
  }

  /** A request that resumes is sent again exactly when its flight succeeded, and rejected otherwise. */
  lemma ResumeDecides(s: Client, id: int)
    requires Enabled(s, Resume(id))
    ensures var s' := Next(s, Resume(id));
            && id in s'.requests && s'.flights == s.flights && s'.inFlight == s.inFlight
            && s'.requests[id].flight == s.requests[id].phase.flight
            && (forall k :: k != id ==> (k in s'.requests <==> k in s.requests))
            && (forall k :: k != id && k in s.requests ==> s'.requests[k] == s.requests[k])
            && (if FlightSucceeded(s, id)
                then s'.requests[id].phase == Retried && s'.requests[id].sends == s.requests[id].sends + 1
                else s'.requests[id].phase == Rejected && s'.requests[id].sends == s.requests[id].sends)
  {
  }

  /** A flight is decided by the server's answer, and stays in the way until its promise finally clears it. */
  lemma FlightDecides(s: Client, f: int, ok: bool, access: string, refresh: string)
    requires Inv(s) && Enabled(s, Settle(f, ok, access, refresh))
    ensures var s' := Next(s, Settle(f, ok, access, refresh));
            && s'.flights == s.flights[f := Decided(ok)] && s'.inFlight == s.inFlight == Some(f)
            && Enabled(s', Finally(f)) && Next(s', Finally(f)) == s'.(inFlight := None)
  {
  }

  // ---------------------------------------------------------------- no retry loop

  function Weight(r: Request): nat {
    match r.phase
    case First => 5
    case Waiting(_) => 2
    case Retried => 1
    case _ => 0
  }

  function FlightWeight(v: Verdict): nat {
    if v == Pending then 1 else 0
  }

  function Weights(s: Client): (m: map<int, int>)
    ensures forall k :: k in m ==> m[k] >= 0
  {
    map id | id in s.requests :: Weight(s.requests[id])
  }

  function FlightWeights(s: Client): (m: map<int, int>)
    ensures forall k :: k in m ==> m[k] >= 0
  {
    map f | f in s.flights :: FlightWeight(s.flights[f])
  }

  /** The work still owed to the requests sent so far. */
  ghost function Work(s: Client): int {
    Total(Weights(s)) + Total(FlightWeights(s)) + (if s.inFlight.Some? then 1 else 0)
  }

  lemma MoveWork(s: Client, id: int, r: Request)
    ensures Work(Move(s, id, r)) == Work(s) + Weight(r) - (if id in s.requests then Weight(s.requests[id]) else 0)
  {
    var m := Weights(s);
    assert Weights(Move(s, id, r)) == m[id := Weight(r)];
    assert FlightWeights(Move(s, id, r)) == FlightWeights(s);
    if id in s.requests {
      TotalUpdate(m, id, Weight(r));
    } else {
      TotalAdd(m, id, Weight(r));
    }
  }

  lemma RefreshWork(s: Client)
    requires Inv(s)
    ensures Work(Refresh(s).0) <= Work(s) + 2
  {
    if s.inFlight.None? && s.tokens.refresh.Some? {
      var m := FlightWeights(s);
      assert s.nextFlight !in s.flights;
      assert FlightWeights(Refresh(s).0) == m[s.nextFlight := 1];
      assert Weights(Refresh(s).0) == Weights(s);
      TotalAdd(m, s.nextFlight, 1);
    }
  }

  lemma SettleWork(s: Client, f: int, ok: bool, access: string, refresh: string)
    requires Enabled(s, Settle(f, ok, access, refresh))
    ensures Work(Next(s, Settle(f, ok, access, refresh))) == Work(s) - 1
  {
    var m := FlightWeights(s);
    var s' := Next(s, Settle(f, ok, access, refresh));
    assert FlightWeights(s') == m[f := 0];
    assert Weights(s') == Weights(s);
    TotalUpdate(m, f, 0);
  }

  lemma AnswerWorks(s: Client, id: int, unauthorized: bool, wrongPassword: bool)
    requires Inv(s) && Enabled(s, Answer(id, unauthorized, wrongPassword))
    ensures Work(Next(s, Answer(id, unauthorized, wrongPassword))) <= Work(s) - 1
  {
    hide Work, RequestOk;
    var r := s.requests[id];
    RefreshWork(s);
    MoveWork(Refresh(s).0, id, r.(phase := Waiting(Refresh(s).1)));
    MoveWork(s, id, r.(phase := Answered));
  }

  /** Of the client's other fields, only the module variable counts. */
  lemma SameRequestsWork(s: Client, tokens: Tokens, inFlight: Option<int>)
    ensures Work(s.(tokens := tokens, inFlight := inFlight)) ==
              Work(s) + (if inFlight.Some? then 1 else 0) - (if s.inFlight.Some? then 1 else 0)
  {
    var s' := s.(tokens := tokens, inFlight := inFlight);
    assert Weights(s') == Weights(s) && FlightWeights(s') == FlightWeights(s);
  }

  lemma ResumeWorks(s: Client, id: int)
    requires Enabled(s, Resume(id))
    ensures Work(Next(s, Resume(id))) <= Work(s) - 1
  {
    hide Work;
    var r := s.requests[id];
    var r1 := r.(flight := r.phase.flight, verdict := Some(VerdictFor(s, r.phase.flight)));
    MoveWork(s, id, r1.(phase := Retried, sends := r.sends + 1));
    SameRequestsWork(s, Tokens(None, None), s.inFlight);
    MoveWork(s.(tokens := Tokens(None, None)), id, r1.(phase := Rejected));
  }

  /** Everything but sending and logging in uses up work; sending a request brings five units. */
  lemma NextWorks(s: Client, e: Event)
    requires Inv(s) && Enabled(s, e)
    ensures Work(Next(s, e)) <= Work(s) + (if e.Send? then 5 else if e.Login? then 0 else -1)
  {
    hide Inv, Work;
    match e
    case Send(id, authUrl) => MoveWork(s, id, Request(authUrl, First, 1, None, None));
    case Answer(id, unauthorized, wrongPassword) => AnswerWorks(s, id, unauthorized, wrongPassword);
    case Settle(f, ok, access, refresh) => SettleWork(s, f, ok, access, refresh);
    case Finally(_) => SameRequestsWork(s, s.tokens, None);
    case Resume(id) => ResumeWorks(s, id);
    case Reanswer(id) => MoveWork(s, id, s.requests[id].(phase := Answered));
    case Login(tokens) => SameRequestsWork(s, tokens, s.inFlight);
  }

  function Sends(es: seq<Event>): nat {
    if es == [] then 0 else (if es[0].Send? then 1 else 0) + Sends(es[1..])
  }

  function Reactions(es: seq<Event>): nat {
    if es == [] then 0 else (if es[0].Send? || es[0].Login? then 0 else 1) + Reactions(es[1..])
  }

  lemma WorkNonnegative(s: Client)
    ensures Work(s) >= 0
  {
    TotalNonnegative(Weights(s));
    TotalNonnegative(FlightWeights(s));
  }

  lemma {:induction false} ReactionsBounded(s: Client, es: seq<Event>)
    requires Inv(s) && IsRun(s, es)
    ensures Reactions(es) <= 5 * Sends(es) + Work(s)
    decreases |es|
  {
    if es == [] {
      WorkNonnegative(s);
    } else {
      NextWorks(s, es[0]);
      NextKeeps(s, es[0]);
      ReactionsBounded(Next(s, es[0]), es[1..]);
    }
  }

  /** There is no retry loop: n requests cause at most 5n reactions, in any interleaving. */
  lemma NoRetryLoop(tokens: Tokens, es: seq<Event>)
    requires IsRun(Fresh(tokens), es)
    ensures Reactions(es) <= 5 * Sends(es)
  {
    var s := Fresh(tokens);
    ReactionsBounded(s, es);
    assert Weights(s) == map[] && FlightWeights(s) == map[];
  }

  /** Nobody is stuck: while a request is open, some reaction can happen. */
  lemma OpenRequestsProgress(s: Client, id: int) returns (e: Event)
    requires Inv(s) && id in s.requests && s.requests[id].phase != Answered && s.requests[id].phase != Rejected
    ensures Enabled(s, e) && !e.Send? && !e.Login?
  {
    assert RequestOk(s, s.requests[id]);
    match s.requests[id].phase
    case First => e := Answer(id, false, false);
    case Retried => e := Reanswer(id);
    case Waiting(flight) =>
      if Ready(s, id) {
        e := Resume(id);
      } else {
        var f := flight.value;
        e := if s.flights[f] == Pending then Settle(f, false, "", "") else Finally(f);
      }
  }

  // ---------------------------------------------------------------- the interceptor object

  class Interceptor {
    var requests: map<int, Request>
    /** The verdicts of the promises created so far. */
    var flights: map<int, Verdict>
    /** The module variable. */
    var refreshInFlight: Option<int>
    var nextFlight: int
    var tokens: Tokens

    function State(): Client
      reads this
    {
      Client(requests, flights, refreshInFlight, nextFlight, tokens)
    }

    constructor (tokens: Tokens)
      ensures State() == Fresh(tokens)
    {
      requests, flights, refreshInFlight, nextFlight := map[], map[], None, 0;
      this.tokens := tokens;
    }

    method Intercept(id: int, authUrl: bool)
      requires Enabled(State(), Send(id, authUrl))
      modifies this
      ensures State() == Next(old(State()), Send(id, authUrl))
    {
      requests := requests[id := Request(authUrl, First, 1, None, None)];
    }

    method RefreshTokens() returns (flight: Option<int>)
      modifies this
      ensures (State(), flight) == Refresh(old(State()))
    {
      if refreshInFlight.Some? {
        return refreshInFlight;
      }
      if tokens.refresh.None? {
        return None;
      }
      flight := Some(nextFlight);
      flights := flights[nextFlight := Pending];
      refreshInFlight := flight;
      nextFlight := nextFlight + 1;
    }

    method OnResponse(id: int, unauthorized: bool, wrongPassword: bool)
      requires Enabled(State(), Answer(id, unauthorized, wrongPassword))
      modifies this
      ensures State() == Next(old(State()), Answer(id, unauthorized, wrongPassword))
    {
      var r := requests[id];
      if !unauthorized || r.authUrl {
        requests := requests[id := r.(phase := Answered)];
        return;
      }
      if wrongPassword {
        requests := requests[id := r.(phase := Answered)];
        return;
      }
      var flight := RefreshTokens();
      requests := requests[id := r.(phase := Waiting(flight))];
    }

    method OnRefreshResponse(f: int, ok: bool, access: string, refresh: string)
      requires Enabled(State(), Settle(f, ok, access, refresh))
      modifies this
      ensures State() == Next(old(State()), Settle(f, ok, access, refresh))
    {
      if ok {
        tokens := Tokens(Some(access), Some(refresh));
      }
      flights := flights[f := Decided(ok)];
    }

    method OnFinally(f: int)
      requires Enabled(State(), Event.Finally(f))
      modifies this
      ensures State() == Next(old(State()), Event.Finally(f))
    {
      refreshInFlight := None;
    }

    method OnVerdict(id: int)
      requires Enabled(State(), Resume(id))
      modifies this
      ensures State() == Next(old(State()), Resume(id))
    {
      var r := requests[id];
      var ok := r.phase.flight.Some? && r.phase.flight.value in flights &&
                flights[r.phase.flight.value] == Decided(true);
      var seen := r.(flight := r.phase.flight, verdict := Some(ok));
      if !ok {
        tokens := Tokens(None, None);
        requests := requests[id := seen.(phase := Rejected)];
        return;
      }
      requests := requests[id := seen.(phase := Retried, sends := r.sends + 1)];
    }

    method OnRetryResponse(id: int)
      requires Enabled(State(), Reanswer(id))
      modifies this
      ensures State() == Next(old(State()), Reanswer(id))
    {
      requests := requests[id := requests[id].(phase := Answered)];
    }
  }
}
