/** Refresh-token rotation: the server's read, compare-and-swap and revocations
    (backend/app/api.py) and the client's refresh under a lock
    (tahmeed/services/api_client.py), as interleaved steps. */
module Tokens {
  import opened Mongo

  /** A refresh token: session id and secret. */
  datatype Token = Token(session: nat, secret: nat)

  /** One call of `/auth/refresh` and the token it carries. */
  datatype Post = Post(request: nat, token: Token)

  datatype Session = Session(secret: nat, revoked: bool, expired: bool)

  /** Where a call of `/auth/refresh` stands. */
  datatype Phase =
    | Arrived(token: Token)
    | Reused(session: nat)
    | Swapping(token: Token)
    | Granted(token: Token)
    | Denied
    | Closed

  /** `supply` is the next secret nobody has seen; `wins` are the calls that exchanged
      their secret, in order. */
  datatype Server = Server(sessions: map<nat, Session>, requests: map<nat, Phase>,
    supply: nat, wins: seq<Post>)

  datatype ServerStep =
    | Arrive(request: nat, token: Token)
    | ReadSession(request: nat)
    | RevokeReused(request: nat)
    | RefuseUser(request: nat)
    | Swap(request: nat)
    | Issue(session: nat)
    | Revoke(session: nat)
    | Expire(session: nat)

  function Revoked(s: Server, id: nat): Server {
    if id in s.sessions then s.(sessions := s.sessions[id := s.sessions[id].(revoked := true)]) else s
  }

  /** `find_one`, then the checks before the next await. */
  function AfterRead(s: Server, token: Token): Phase {
    if token.session !in s.sessions || s.sessions[token.session].revoked || s.sessions[token.session].expired
    then Denied
    else if s.sessions[token.session].secret != token.secret then Reused(token.session)
    else Swapping(token)
  }

  predicate SwapSucceeds(s: Server, token: Token) {
    token.session in s.sessions && s.sessions[token.session].secret == token.secret
    && !s.sessions[token.session].revoked
  }

  function Rotated(s: Server, r: nat, token: Token): Server
    requires token.session in s.sessions
  {
    s.(sessions := s.sessions[token.session := s.sessions[token.session].(secret := s.supply)],
       requests := s.requests[r := Granted(Token(token.session, s.supply))],
       supply := s.supply + 1, wins := s.wins + [Post(r, token)])
  }

  function ServerNext(s: Server, step: ServerStep): Server {
    match step
    case Arrive(r, token) =>
      if r in s.requests then s else s.(requests := s.requests[r := Arrived(token)])
    case ReadSession(r) =>
      if r in s.requests && s.requests[r].Arrived?
      then s.(requests := s.requests[r := AfterRead(s, s.requests[r].token)]) else s
    case RevokeReused(r) =>
      if r in s.requests && s.requests[r].Reused?
      then Revoked(s, s.requests[r].session).(requests := s.requests[r := Denied]) else s
    case RefuseUser(r) =>
      if r in s.requests && s.requests[r].Swapping? then s.(requests := s.requests[r := Denied]) else s
    case Swap(r) =>
      if r in s.requests && s.requests[r].Swapping? then
        if SwapSucceeds(s, s.requests[r].token) then Rotated(s, r, s.requests[r].token)
        else s.(requests := s.requests[r := Denied])
      else s
    case Issue(id) =>
      if id in s.sessions then s
      else s.(sessions := s.sessions[id := Session(s.supply, false, false)], supply := s.supply + 1)
    case Revoke(id) => Revoked(s, id)
    case Expire(id) =>
      if id in s.sessions then s.(sessions := s.sessions[id := s.sessions[id].(expired := true)]) else s
  }

  function ServerRun(s: Server, steps: seq<ServerStep>): Server {
    if steps == [] then s else ServerNext(ServerRun(s, steps[..|steps| - 1]), steps[|steps| - 1])
  }

  const EMPTY_SERVER := Server(map[], map[], 0, [])

  // ---------------------------------------------------------------- the server alone

  /** Spent secrets are gone: none is stored again, and none was spent twice. */
  predicate SpentForGood(s: Server) {
    && (forall id | id in s.sessions :: s.sessions[id].secret < s.supply)
    && (forall i | 0 <= i < |s.wins| :: s.wins[i].token.secret < s.supply && s.wins[i].token.session in s.sessions
          && s.sessions[s.wins[i].token.session].secret != s.wins[i].token.secret)
    && (forall i, j | 0 <= i < j < |s.wins| :: s.wins[i].token != s.wins[j].token)
  }

  lemma ServerStepKeeps(s: Server, step: ServerStep)
    requires SpentForGood(s)
    ensures SpentForGood(ServerNext(s, step))
  {
  }

  lemma {:induction false} ServerRunKeeps(steps: seq<ServerStep>)
    ensures SpentForGood(ServerRun(EMPTY_SERVER, steps))
    decreases |steps|
  {
    if steps != [] {
      ServerRunKeeps(steps[..|steps| - 1]);
      ServerStepKeeps(ServerRun(EMPTY_SERVER, steps[..|steps| - 1]), steps[|steps| - 1]);
    }
  }

  /** Whatever tokens anybody sends and however the handlers interleave, each secret is
      exchanged by at most one refresh. */
  lemma EachSecretWinsOnce(steps: seq<ServerStep>, i: nat, j: nat)
    requires i < j < |ServerRun(EMPTY_SERVER, steps).wins|
    ensures ServerRun(EMPTY_SERVER, steps).wins[i].token != ServerRun(EMPTY_SERVER, steps).wins[j].token
  {
    ServerRunKeeps(steps);
  }

  /** What a swap does, read off the session it meets: it exchanges the secret exactly when
      the session is stored with that secret and is not revoked, and answers 401 otherwise. */
  lemma SwapExactly(s: Server, r: nat)
    requires r in s.requests && s.requests[r].Swapping?
    ensures var t, token := ServerNext(s, Swap(r)), s.requests[r].token;
      && (t.requests[r].Granted? <==>
            token.session in s.sessions && s.sessions[token.session].secret == token.secret
            && !s.sessions[token.session].revoked)
      && (if t.requests[r].Granted?
          then t.requests[r].token == Token(token.session, s.supply) && t.supply == s.supply + 1
            && t.sessions == s.sessions[token.session := s.sessions[token.session].(secret := s.supply)]
            && t.wins == s.wins + [Post(r, token)]
          else t == s.(requests := s.requests[r := Denied]))
  {
  }

  /** The session is stored with exactly this secret and no revocation. */
  predicate StoredUnrevoked(sessions: map<nat, Session>, token: Token) {
    token.session in sessions
    && sessions[token.session] == Session(token.secret, false, sessions[token.session].expired)
  }

  lemma WinsNeedALiveSession(s: Server, step: ServerStep)
    ensures var t := ServerNext(s, step);
      t.wins == s.wins ||
      (step.Swap? && step.request in s.requests && s.requests[step.request].Swapping?
       && t.wins == s.wins + [Post(step.request, s.requests[step.request].token)]
       && StoredUnrevoked(s.sessions, s.requests[step.request].token))
  {
  }

  /** Every secret that was ever exchanged was, at that moment, the one stored in a session
      that was not revoked. */
  lemma {:induction false} EveryWinWasLive(steps: seq<ServerStep>, i: nat)
    requires i < |ServerRun(EMPTY_SERVER, steps).wins|
    ensures exists n: nat | n < |steps| ::
      StoredUnrevoked(ServerRun(EMPTY_SERVER, steps[..n]).sessions, ServerRun(EMPTY_SERVER, steps).wins[i].token)
    decreases |steps|
  {
    if steps != [] {
      var last := |steps| - 1;
      var s := ServerRun(EMPTY_SERVER, steps[..last]);
      WinsNeedALiveSession(s, steps[last]);
      if i < |s.wins| {
        EveryWinWasLive(steps[..last], i);
        var n: nat :| n < last
          && StoredUnrevoked(ServerRun(EMPTY_SERVER, steps[..last][..n]).sessions, s.wins[i].token);
        assert steps[..last][..n] == steps[..n];
      }
    }
  }

  /** A revoked session stays revoked through any further run. */
  lemma {:induction false} RevokedStays(s: Server, steps: seq<ServerStep>, id: nat)
    requires id in s.sessions && s.sessions[id].revoked
    ensures id in ServerRun(s, steps).sessions && ServerRun(s, steps).sessions[id].revoked
    decreases |steps|
  {
    if steps != [] { RevokedStays(s, steps[..|steps| - 1], id); }
  }

  /** Which calls are judged theft on reading, and what that costs: exactly the session that
      the token names is revoked, and the call is refused. */
  lemma ReuseRevokes(s: Server, r: nat)
    requires r in s.requests && s.requests[r].Arrived?
    ensures var token, read := s.requests[r].token, ServerNext(s, ReadSession(r));
      var found := token.session in s.sessions && !s.sessions[token.session].revoked
        && !s.sessions[token.session].expired;
      && read.sessions == s.sessions && read.wins == s.wins
      && (read.requests[r].Reused? <==> found && s.sessions[token.session].secret != token.secret)
      && (read.requests[r].Swapping? <==> found && s.sessions[token.session].secret == token.secret)
      && (read.requests[r].Reused? ==>
            var done := ServerNext(read, RevokeReused(r));
            && done.sessions == s.sessions[token.session := s.sessions[token.session].(revoked := true)]
            && done.requests == s.requests[r := Denied] && done.wins == s.wins)
  {
  }

  predicate GrantedOf(s: Server, r: nat, id: nat) {
    r in s.requests && s.requests[r].Granted? && s.requests[r].token.session == id
  }

  lemma RevokedStepGrantsNothing(s: Server, step: ServerStep, id: nat)
    requires id in s.sessions && s.sessions[id].revoked
    ensures var t := ServerNext(s, step);
      && s.wins <= t.wins && (forall i | |s.wins| <= i < |t.wins| :: t.wins[i].token.session != id)
      && (forall r | GrantedOf(t, r, id) :: GrantedOf(s, r, id) && t.requests[r] == s.requests[r])
  {
  }

  /** Once a session is revoked, whatever refreshes were on their way, none of its secrets is
      exchanged any more and no new token of it is granted. */
  lemma {:induction false} RevokedGrantsNothing(s: Server, steps: seq<ServerStep>, id: nat)
    requires id in s.sessions && s.sessions[id].revoked
    ensures var t := ServerRun(s, steps);
      && s.wins <= t.wins && (forall i | |s.wins| <= i < |t.wins| :: t.wins[i].token.session != id)
      && (forall r | GrantedOf(t, r, id) :: GrantedOf(s, r, id) && t.requests[r] == s.requests[r])
    decreases |steps|
  {
    if steps != [] {
      RevokedGrantsNothing(s, steps[..|steps| - 1], id);
      RevokedStays(s, steps[..|steps| - 1], id);
      RevokedStepGrantsNothing(ServerRun(s, steps[..|steps| - 1]), steps[|steps| - 1], id);
    }
  }

  // ---------------------------------------------------------------- client and server

  /** `lock` is the post in flight under `_refresh_lock`, `sent` all posts so far; `logins`
      are the login calls in flight, with the token once the server has issued it. */
  datatype World = World(server: Server, access: Option<nat>, refresh: Option<Token>,
    lock: Option<Post>, logins: map<nat, Option<Token>>, sent: seq<Post>, nextAccess: nat)

  const START := World(EMPTY_SERVER, None, None, None, map[], [], 0)

  datatype Step =
    | Enter(rejected: Option<nat>, request: nat)
    | Answer
    | NetworkFailure
    | Cancelled
    | LoginStart(login: nat)
    | LoginIssued(login: nat, session: nat)
    | LoginDone(login: nat)
    | ClearTokens
    | ServerSide(step: ServerStep)

  function Cleared(w: World): World { w.(access := None, refresh := None) }

  function SetTokens(w: World, token: Token): World {
    w.(access := Some(w.nextAccess), refresh := Some(token), nextAccess := w.nextAccess + 1)
  }

  /** Steps the server takes on its own. */
  predicate OwnStep(step: ServerStep) { !step.Arrive? && !step.Issue? }

  /** A task that holds the lock either finds a newer access token, or finds no refresh
      token, or posts the one there is before its next await. */
  function Next(w: World, step: Step): World {
    match step
    case Enter(rejected, r) =>
      if w.lock.Some? || r in w.server.requests then w
      else if w.access.Some? && w.access != rejected then w
      else if w.refresh.None? then w
      else w.(lock := Some(Post(r, w.refresh.value)), sent := w.sent + [Post(r, w.refresh.value)],
              server := ServerNext(w.server, Arrive(r, w.refresh.value)))
    case Answer =>
      if w.lock.None? || w.lock.value.request !in w.server.requests then w
      else
        var r := w.lock.value.request;
        var closed := w.(lock := None, server := w.server.(requests := w.server.requests[r := Closed]));
        (match w.server.requests[r]
        case Granted(token) => SetTokens(closed, token)
        case Denied => Cleared(closed)
        case _ => w)
    case NetworkFailure => if w.lock.Some? then Cleared(w.(lock := None)) else w
    case Cancelled => w.(lock := None)
    case LoginStart(l) => if l in w.logins then w else Cleared(w.(logins := w.logins[l := None]))
    case LoginIssued(l, id) =>
      if l in w.logins && w.logins[l].None? && id !in w.server.sessions
      then w.(logins := w.logins[l := Some(Token(id, w.server.supply))], server := ServerNext(w.server, Issue(id)))
      else w
    case LoginDone(l) =>
      if l in w.logins && w.logins[l].Some?
      then SetTokens(w, w.logins[l].value).(logins := w.logins - {l}) else w
    case ClearTokens => Cleared(w)
    case ServerSide(own) => if OwnStep(own) then w.(server := ServerNext(w.server, own)) else w
  }

  function Run(w: World, steps: seq<Step>): World {
    if steps == [] then w else Next(Run(w, steps[..|steps| - 1]), steps[|steps| - 1])
  }

  // ---------------------------------------------------------------- one token per session

  /** Where a refresh token can be that may still be sent or exchanged. */
  datatype Place = Stored | InLogin(login: nat) | InRequest(request: nat)

  /** The token that a call carries or was granted. */
  function Carried(phase: Phase): Option<Token> {
    match phase
    case Arrived(t) => Some(t)
    case Swapping(t) => Some(t)
    case Granted(t) => Some(t)
    case _ => None
  }

  function At(w: World, p: Place): Option<Token> {
    match p
    case Stored =>
      if w.lock.Some? && w.refresh == Some(w.lock.value.token) then None else w.refresh
    case InLogin(l) => if l in w.logins then w.logins[l] else None
    case InRequest(r) => if r in w.server.requests then Carried(w.server.requests[r]) else None
  }

  predicate Current(w: World, t: Token) {
    t.session in w.server.sessions && w.server.sessions[t.session].secret == t.secret
  }

  /** Every live token is its session's current one, and no session has two. */
  ghost predicate OneTokenPerSession(w: World) {
    && (forall id | id in w.server.sessions :: w.server.sessions[id].secret < w.server.supply)
    && (forall p: Place | At(w, p).Some? :: Current(w, At(w, p).value))
    && (forall p: Place, q: Place | p != q && At(w, p).Some? && At(w, q).Some? ::
          At(w, p).value.session != At(w, q).value.session)
  }

  /** Said of the fields: the stored refresh token, when no post of it is in flight, and every
      token granted but not yet received are what their sessions hold, and they are not of
      one session. */
  lemma OneTokenMeans(w: World, r: nat)
    requires OneTokenPerSession(w)
    ensures w.lock.None? && w.refresh.Some? ==>
      w.refresh.value.session in w.server.sessions
      && w.server.sessions[w.refresh.value.session].secret == w.refresh.value.secret
    ensures r in w.server.requests && w.server.requests[r].Granted? ==>
      var t := w.server.requests[r].token;
      && t.session in w.server.sessions && w.server.sessions[t.session].secret == t.secret
      && (w.lock.None? && w.refresh.Some? ==> w.refresh.value.session != t.session)
  {
    assert At(w, Stored) == if w.lock.Some? && w.refresh == Some(w.lock.value.token) then None else w.refresh;
    assert At(w, InRequest(r)) == if r in w.server.requests then Carried(w.server.requests[r]) else None;
  }

  /** A network failure drops the tokens of the client that was refreshing, and touches no
      session; a login is issued one session, and nothing else issues any. */
  lemma ClientSteps(w: World, step: Step, l: nat, id: nat)
    ensures var t := Next(w, NetworkFailure);
      && t.server == w.server && t.sent == w.sent && t.logins == w.logins && t.lock.None?
      && (w.lock.Some? ==> t.access.None? && t.refresh.None?)
      && (w.lock.None? ==> t == w)
    ensures l in w.logins && w.logins[l].Some? ==> Next(w, LoginIssued(l, id)) == w
    ensures !step.LoginIssued? ==> Next(w, step).server.sessions.Keys == w.server.sessions.Keys
  {
  }

  lemma EnterKeeps(w: World, rejected: Option<nat>, r: nat)
    requires OneTokenPerSession(w)
    ensures OneTokenPerSession(Next(w, Enter(rejected, r)))
  {
    var t := Next(w, Enter(rejected, r));
    if t != w {
      assert At(w, Stored) == w.refresh;
      forall p: Place | p != InRequest(r) && p != Stored ensures At(t, p) == At(w, p) {
      }
      assert At(t, InRequest(r)) == At(w, Stored) && At(t, Stored) == None && At(w, InRequest(r)) == None;
    }
  }

  lemma AnswerKeeps(w: World)
    requires OneTokenPerSession(w)
    ensures OneTokenPerSession(Next(w, Answer))
  {
    var t := Next(w, Answer);
    if t != w {
      var r := w.lock.value.request;
      forall p: Place | p != InRequest(r) && p != Stored ensures At(t, p) == At(w, p) {
      }
      assert At(t, InRequest(r)) == None;
      assert At(t, Stored) == if w.server.requests[r].Granted? then At(w, InRequest(r)) else None;
    }
  }

  lemma ClearedKeeps(w: World)
    requires OneTokenPerSession(w)
    ensures OneTokenPerSession(Cleared(w))
    ensures w.lock.Some? ==> OneTokenPerSession(Cleared(w.(lock := None)))
  {
    forall p: Place ensures At(Cleared(w), p) == if p.Stored? then None else At(w, p) {
    }
    forall p: Place ensures At(Cleared(w.(lock := None)), p) == if p.Stored? then None else At(w, p) {
    }
  }

  lemma LoginKeeps(w: World, step: Step)
    requires OneTokenPerSession(w) && (step.LoginStart? || step.LoginIssued? || step.LoginDone?)
    ensures OneTokenPerSession(Next(w, step))
  {
    var t := Next(w, step);
    if t != w {
      match step {
        case LoginStart(l) =>
          forall p: Place ensures At(t, p) == if p.Stored? then None else At(w, p) {
          }
        case LoginIssued(l, id) =>
          forall p: Place ensures At(t, p) ==
            if p == InLogin(l) then Some(Token(id, w.server.supply)) else At(w, p)
          {
          }
        case LoginDone(l) =>
          forall p: Place | p != Stored && p != InLogin(l) ensures At(t, p) == At(w, p) {
          }
          assert At(t, InLogin(l)) == None && (At(t, Stored) == None || At(t, Stored) == At(w, InLogin(l)));
      }
    }
  }

  lemma SwapKeeps(w: World, r: nat)
    requires OneTokenPerSession(w)
    ensures OneTokenPerSession(Next(w, ServerSide(Swap(r))))
  {
    var t := Next(w, ServerSide(Swap(r)));
    if t != w {
      forall p: Place | p != InRequest(r) ensures At(t, p) == At(w, p) {
      }
      assert At(w, InRequest(r)).Some?;
    }
  }

  lemma ServerSideKeeps(w: World, step: ServerStep)
    requires OneTokenPerSession(w) && !step.Swap?
    ensures OneTokenPerSession(Next(w, ServerSide(step)))
  {
    var t := Next(w, ServerSide(step));
    if t != w {
      forall p: Place ensures At(t, p) == At(w, p) || At(t, p) == None {
      }
    }
  }

  lemma StepKeeps(w: World, step: Step)
    requires OneTokenPerSession(w) && !step.Cancelled?
    ensures OneTokenPerSession(Next(w, step))
  {
    match step {
      case Enter(rejected, r) => EnterKeeps(w, rejected, r);
      case Answer => AnswerKeeps(w);
      case NetworkFailure => ClearedKeeps(w);
      case LoginStart(_) => LoginKeeps(w, step);
      case LoginIssued(_, _) => LoginKeeps(w, step);
      case LoginDone(_) => LoginKeeps(w, step);
      case ClearTokens => ClearedKeeps(w);
      case ServerSide(own) => if own.Swap? { SwapKeeps(w, own.request); } else { ServerSideKeeps(w, own); }
    }
  }

  predicate NoCancellation(steps: seq<Step>) {
    forall i | 0 <= i < |steps| :: !steps[i].Cancelled?
  }

  /** On every run without cancellation a session has one live token, the current one. */
  lemma {:induction false} OneTokenAlways(steps: seq<Step>)
    requires NoCancellation(steps)
    ensures OneTokenPerSession(Run(START, steps))
    decreases |steps|
  {
    if steps != [] {
      OneTokenAlways(steps[..|steps| - 1]);
      StepKeeps(Run(START, steps[..|steps| - 1]), steps[|steps| - 1]);
    }
  }
}
