/** The token store: bearer tokens mapped to upstream client handles with a sliding 300-second
    expiry, behind a process-wide maintenance switch; plus the two request handlers that change it,
    login (`generate_token`) and `change_period`. Time is a parameter in whole seconds. */
module Sessions {
  import opened Text
  import opened Periods
  import Login

  /** Seconds without a request after which a token is no longer honoured. */
  const ClientTimeoutThreshold: int := 300

  /** The upstream client handle, reduced to what the core reads and writes: whether it is logged
      in, its periods and current period, and the two period selections the server caches on it. */
  class Client {
    const loggedIn: bool
    const periods: seq<Period>
    const currentPeriod: Period
    var calculatedPeriod: Resolution
    var activatedPeriod: Resolution

    constructor (loggedIn: bool, periods: seq<Period>, currentPeriod: Period)
      ensures this.loggedIn == loggedIn && this.periods == periods && this.currentPeriod == currentPeriod
      ensures calculatedPeriod == NoPeriod && activatedPeriod == NoPeriod
    {
      this.loggedIn := loggedIn;
      this.periods := periods;
      this.currentPeriod := currentPeriod;
      calculatedPeriod := NoPeriod;
      activatedPeriod := NoPeriod;
    }
  }

  type Token = string

  /** One entry of `saved_clients`. */
  datatype Session = Session(client: Client, lastInteraction: int)

  type Sessions = map<Token, Session>

  /** The four answers of `get_client`. */
  datatype Outcome = Maintenance | Ok(client: Client) | Expired | NotFound

  /** What a lookup answers and the session map it leaves behind. */
  datatype Lookup = Lookup(outcome: Outcome, sessions: Sessions)

  /** `get_client` on values: maintenance first, untouched map; then a missing token; a live entry
      is refreshed to `now`; an entry idle for the threshold or longer is deleted. */
  function LookUp(sessions: Sessions, token: Token, now: int, maintenance: bool): Lookup {
    if maintenance then Lookup(Maintenance, sessions)
    else if token !in sessions then Lookup(NotFound, sessions)
    else
      var entry := sessions[token];
      if now - entry.lastInteraction < ClientTimeoutThreshold then
        Lookup(Ok(entry.client), sessions[token := entry.(lastInteraction := now)])
      else
        Lookup(Expired, sessions - {token})
  }

  /** The four outcomes, each with the state it leaves. */
  lemma LookUpOutcomes(sessions: Sessions, token: Token, now: int, maintenance: bool)
    ensures var r := LookUp(sessions, token, now, maintenance);
      && (maintenance ==> r.outcome == Maintenance && r.sessions == sessions)
      && (r.outcome.Ok? <==> !maintenance && token in sessions
                              && now - sessions[token].lastInteraction < ClientTimeoutThreshold)
      && (r.outcome.Ok? ==> r.outcome.client == sessions[token].client
                            && r.sessions == sessions[token := Session(sessions[token].client, now)])
      && (r.outcome == Expired <==> !maintenance && token in sessions
                                    && now - sessions[token].lastInteraction >= ClientTimeoutThreshold)
      && (r.outcome == Expired ==> r.sessions == sessions - {token})
      && (r.outcome == NotFound <==> !maintenance && token !in sessions)
      && (r.outcome == NotFound ==> r.sessions == sessions)
  {
  }

  /** No lookup touches another token's entry. */
  lemma LookUpFrame(sessions: Sessions, token: Token, now: int, maintenance: bool, other: Token)
    requires other != token
    ensures var after := LookUp(sessions, token, now, maintenance).sessions;
      (other in after <==> other in sessions) && (other in after ==> after[other] == sessions[other])
  {
  }

  /** An entry idle for the threshold is reported expired once; it is gone for every later lookup,
      so no caller sees a stale entry as valid. */
  lemma ExpiredOnlyOnce(sessions: Sessions, token: Token, now: int, later: int)
    requires token in sessions && now - sessions[token].lastInteraction >= ClientTimeoutThreshold
    ensures LookUp(sessions, token, now, false).outcome == Expired
    ensures LookUp(LookUp(sessions, token, now, false).sessions, token, later, false).outcome == NotFound
  {
  }

  /** No entry's time stamp lies after `now`. */
  ghost predicate StampedBy(sessions: Sessions, now: int) {
    forall t :: t in sessions ==> sessions[t].lastInteraction <= now
  }

  /** With a clock that does not run backwards, a lookup keeps every stamp at or before the clock,
      and no entry's `lastInteraction` ever decreases. */
  lemma LookUpMonotone(sessions: Sessions, token: Token, before: int, now: int, maintenance: bool)
    requires StampedBy(sessions, before) && before <= now
    ensures var after := LookUp(sessions, token, now, maintenance).sessions;
      StampedBy(after, now)
      && forall t :: t in after ==> t in sessions && after[t].lastInteraction >= sessions[t].lastInteraction
  {
  }

  /** Registration keeps the same invariant: with a clock that does not run backwards, every stamp
      stays at or before the clock, and no entry has its stamp lowered, an overwritten one included. */
  lemma RegisterMonotone(sessions: Sessions, token: Token, client: Client, before: int, now: int)
    requires StampedBy(sessions, before) && before <= now
    ensures var after := sessions[token := Session(client, now)];
      StampedBy(after, now)
      && forall t :: t in after && t in sessions ==> after[t].lastInteraction >= sessions[t].lastInteraction
  {
  }

  /** Successive lookups of one token: their outcomes and the map they end with. */
  function Replay(sessions: Sessions, token: Token, times: seq<int>): (seq<Outcome>, Sessions)
    decreases |times|
  {
    if times == [] then ([], sessions)
    else
      var step := LookUp(sessions, token, times[0], false);
      var rest := Replay(step.sessions, token, times[1..]);
      ([step.outcome] + rest.0, rest.1)
  }

  /** Each request comes less than the threshold after the previous one (the first after `start`). */
  ghost predicate Spaced(start: int, times: seq<int>) {
    && (times != [] ==> times[0] - start < ClientTimeoutThreshold)
    && forall i :: 1 <= i < |times| ==> times[i] - times[i - 1] < ClientTimeoutThreshold
  }

  /** Sliding expiry: a token used at least once per threshold stays valid for ever, every lookup
      finds the same client, and the entry ends stamped with the last request's time. */
  lemma {:induction false} KeepAlive(sessions: Sessions, token: Token, times: seq<int>)
    requires token in sessions && Spaced(sessions[token].lastInteraction, times)
    ensures var r := Replay(sessions, token, times);
      && |r.0| == |times|
      && (forall i :: 0 <= i < |times| ==> r.0[i] == Ok(sessions[token].client))
      && token in r.1 && r.1[token].client == sessions[token].client
      && r.1[token].lastInteraction == if times == [] then sessions[token].lastInteraction else times[|times| - 1]
  {
    if times != [] {
      var step := LookUp(sessions, token, times[0], false);
      assert step.outcome == Ok(sessions[token].client);
      assert step.sessions[token] == Session(sessions[token].client, times[0]);
      assert Spaced(times[0], times[1..]) by {
        assert times[1..] != [] ==> times[1..][0] == times[1];
        forall i | 1 <= i < |times[1..]|
          ensures times[1..][i] - times[1..][i - 1] < ClientTimeoutThreshold
        {
          assert times[1..][i] == times[i + 1];
        }
      }
      KeepAlive(step.sessions, token, times[1..]);
      var rest := Replay(step.sessions, token, times[1..]);
      forall i | 0 <= i < |times|
        ensures ([step.outcome] + rest.0)[i] == Ok(sessions[token].client)
      {
        if i > 0 {
          assert ([step.outcome] + rest.0)[i] == rest.0[i - 1];
        }
      }
    }
  }

  /** A session stamped at 0 and used at 299 is still valid at 598, and would have expired at 599. */
  lemma SlidingWindowExample(sessions: Sessions, token: Token, client: Client)
    requires token in sessions && sessions[token] == Session(client, 0)
    ensures var first := LookUp(sessions, token, 299, false);
      && first.outcome == Ok(client)
      && LookUp(first.sessions, token, 598, false).outcome == Ok(client)
      && LookUp(first.sessions, token, 599, false).outcome == Expired
      && LookUp(sessions, token, 300, false).outcome == Expired
  {
  }

  /** Registration stores the client under the token stamped with `now`, overwriting any entry
      there and leaving every other entry as it was; the token is valid straight away. */
  lemma RegisterThenLookUp(sessions: Sessions, token: Token, client: Client, now: int, later: int, other: Token)
    requires later - now < ClientTimeoutThreshold && other != token
    ensures var after := sessions[token := Session(client, now)];
      && LookUp(after, token, later, false).outcome == Ok(client)
      && (other in after <==> other in sessions) && (other in after ==> after[other] == sessions[other])
  {
  }

  /** What the upstream library answered to the login attempt: a client, or an exception's message. */
  datatype Connection = Connected(client: Client) | Unreachable(message: string) {
    function Objects(): set<Client> {
      if Connected? then {client} else {}
    }
  }

  /** The login reply: a token (and, for the QR-code and token logins, the client's credentials),
      or an error. */
  datatype TokenReply = Issued(token: Token, withCredentials: bool) | Refused(error: Login.LoginError)

  /** The `change_period` reply: the new period's name, the error branch, no answer when the client
      is not logged in, or the lookup outcome when the token was not honoured. */
  datatype PeriodReply = Changed(periodName: string) | ChangeFailed | NoReply | Rejected(outcome: Outcome)

  /** With a requested name and a logged-in client, the resolver yields a list only when the name is
      unknown and the current label's family is empty; that list is empty and has no name, which sends
      `change_period` to its error branch. */
  lemma NamedResolutionFailsOnlyOnEmptyFamily(current: Period, ps: seq<Period>, name: string, today: int)
    ensures var r := Resolve(true, current, ps, true, name, false, today);
      && !r.NoPeriod?
      && (r.Several? <==> (forall j :: 0 <= j < |ps| ==> ps[j].name != name)
                          && Label(current) in FamilyLabels && Family(ps, Label(current)) == [])
      && (r.Several? ==> r.periods == [])
  {
  }

  /** The registry `saved_clients`. */
  class TokenStore {
    var sessions: Sessions

    constructor ()
      ensures sessions == map[]
    {
      sessions := map[];
    }

    /** `get_client`. */
    method GetClient(token: Token, now: int, maintenance: bool) returns (outcome: Outcome)
      modifies this
      ensures Lookup(outcome, sessions) == LookUp(old(sessions), token, now, maintenance)
    {
      if maintenance {
        return Maintenance;
      }
      if token in sessions {
        var entry := sessions[token];
        if now - entry.lastInteraction < ClientTimeoutThreshold {
          sessions := sessions[token := entry.(lastInteraction := now)];
          return Ok(entry.client);
        } else {
          sessions := sessions - {token};
          return Expired;
        }
      } else {
        return NotFound;
      }
    }

    /** The registration step of `generate_token`: `saved_clients[token] = {client, now}`. */
    method Register(token: Token, client: Client, now: int)
      modifies this
      ensures sessions == old(sessions)[token := Session(client, now)]
    {
      sessions := sessions[token := Session(client, now)];
    }

    /** `generate_token`: the request checks, then the upstream answer; a connected client gets its
        two period selections and is registered under the fresh `token` before its login state is
        looked at, so a client that is not logged in is registered too. */
    method GenerateToken(maintenance: bool, body: Option<Login.Body>, loginMethod: Login.LoginMethod,
                         version: Login.Version, decode: string -> Option<string>, connection: Connection,
                         token: Token, now: int, today: int) returns (reply: TokenReply)
      modifies this, connection.Objects()
      ensures maintenance ==> reply == Refused(Login.Maintenance) && sessions == old(sessions)
      ensures var admitted := Login.Admit(maintenance, body, loginMethod, version, decode);
        if admitted.Failure? then reply == Refused(admitted.error) && sessions == old(sessions)
        else match connection
          case Unreachable(message) => reply == Refused(Login.Upstream(message)) && sessions == old(sessions)
          case Connected(c) =>
            && sessions == old(sessions)[token := Session(c, now)]
            && c.calculatedPeriod == Resolve(c.loggedIn, c.currentPeriod, c.periods, false, "", false, today)
            && c.activatedPeriod == Resolve(c.loggedIn, c.currentPeriod, c.periods, false, "", true, today)
            && reply == (if c.loggedIn then Issued(token, loginMethod != Login.UrlLogin) else Refused(Login.LoginFailed))
      ensures Login.Admit(maintenance, body, loginMethod, version, decode).Failure? && connection.Connected? ==>
        var c := connection.client;
        c.calculatedPeriod == old(c.calculatedPeriod) && c.activatedPeriod == old(c.activatedPeriod)
    {
      var admitted := Login.Admit(maintenance, body, loginMethod, version, decode);
      if admitted.Failure? {
        return Refused(admitted.error);
      }
      match connection
      case Unreachable(message) =>
        return Refused(Login.Upstream(message));
      case Connected(client) =>
        client.calculatedPeriod := ResolvePeriod(client.loggedIn, client.currentPeriod, client.periods, false, "", false, today);
        client.activatedPeriod := ResolvePeriod(client.loggedIn, client.currentPeriod, client.periods, false, "", true, today);
        Register(token, client, now);
        if client.loggedIn {
          reply := Issued(token, loginMethod != Login.UrlLogin);
        } else {
          reply := Refused(Login.LoginFailed);
        }
    }

    /** `change_period`: look the token up, then resolve the requested name and store the result as
        the client's calculated period; the reply names it when it is a single period. */
    method ChangePeriod(token: Token, periodName: string, now: int, maintenance: bool, today: int)
      returns (reply: PeriodReply)
      modifies this, if token in sessions then {sessions[token].client} else {}
      ensures var step := LookUp(old(sessions), token, now, maintenance);
        && sessions == step.sessions
        && match step.outcome
          case Ok(c) =>
            if c.loggedIn then
              && c.calculatedPeriod == Resolve(true, c.currentPeriod, c.periods, true, periodName, false, today)
              && reply == (if c.calculatedPeriod.Single? then Changed(c.calculatedPeriod.period.name) else ChangeFailed)
            else reply == NoReply && c.calculatedPeriod == old(c.calculatedPeriod)
          case _ => reply == Rejected(step.outcome)
      ensures token in old(sessions) ==>
        var c := old(sessions)[token].client;
        && c.activatedPeriod == old(c.activatedPeriod)
        && (LookUp(old(sessions), token, now, maintenance).outcome.Ok? || c.calculatedPeriod == old(c.calculatedPeriod))
    {
      var outcome := GetClient(token, now, maintenance);
      match outcome
      case Ok(client) =>
        if client.loggedIn {
          client.calculatedPeriod := ResolvePeriod(true, client.currentPeriod, client.periods, true, periodName, false, today);
          if client.calculatedPeriod.Single? {
            reply := Changed(client.calculatedPeriod.period.name);
          } else {
            reply := ChangeFailed;
          }
        } else {
          reply := NoReply;
        }
      case _ =>
        reply := Rejected(outcome);
    }
  }
}
