/** When the server finds a reused refresh token and when the client posts a token twice:
    over all runs of `Tokens`, cancelled refreshes included. */
module Reuse {
  import opened Mongo
  import opened Tokens

  // ---------------------------------------------------------------- what every run keeps

  predicate Exchanged(s: Server, t: Token) {
    exists i | 0 <= i < |s.wins| :: s.wins[i].token == t
  }

  /** The token is its session's current one, or it was until a call exchanged it. */
  predicate Issued(s: Server, t: Token) {
    t.session in s.sessions && (s.sessions[t.session].secret == t.secret || Exchanged(s, t))
  }

  /** Cancelled posts included, every call is one post, and a call that exchanged its
      secret is past its swap. */
  ghost predicate CallsMatchPosts(w: World) {
    && (forall i, j | 0 <= i < j < |w.sent| :: w.sent[i].request != w.sent[j].request)
    && (forall i | 0 <= i < |w.sent| :: w.sent[i].request in w.server.requests)
    && (forall r | r in w.server.requests && (w.server.requests[r].Arrived? || w.server.requests[r].Swapping?) ::
          Post(r, w.server.requests[r].token) in w.sent)
    && (forall r | r in w.server.requests && w.server.requests[r].Granted? ::
          exists i | 0 <= i < |w.server.wins| :: w.server.wins[i].request == r)
    && (forall i | 0 <= i < |w.server.wins| :: w.server.wins[i] in w.sent
          && (w.server.requests[w.server.wins[i].request].Granted?
            || w.server.requests[w.server.wins[i].request].Closed?))
    && (w.lock.Some? ==> w.lock.value in w.sent && !w.server.requests[w.lock.value.request].Closed?)
  }

  ghost predicate TokensWereIssued(w: World) {
    && SpentForGood(w.server)
    && (forall i | 0 <= i < |w.sent| :: Issued(w.server, w.sent[i].token))
    && (w.refresh.Some? ==> Issued(w.server, w.refresh.value))
    && (forall l | l in w.logins && w.logins[l].Some? :: Issued(w.server, w.logins[l].value))
    && (forall r | r in w.server.requests && Carried(w.server.requests[r]).Some? ::
          Issued(w.server, Carried(w.server.requests[r]).value))
  }

  lemma CallsStep(w: World, step: Step)
    requires CallsMatchPosts(w)
    ensures CallsMatchPosts(Next(w, step))
  {
    match step
    case Enter(rejected, r) => CallsEnter(w, rejected, r);
    case Answer => CallsAnswer(w);
    case LoginIssued(l, id) =>
    case ServerSide(own) => CallsServer(w, own);
    case _ =>
  }

  lemma CallsAnswer(w: World)
    requires CallsMatchPosts(w)
    ensures CallsMatchPosts(Next(w, Answer))
  {
  }

  lemma CallsEnter(w: World, rejected: Option<nat>, r: nat)
    requires CallsMatchPosts(w)
    ensures CallsMatchPosts(Next(w, Enter(rejected, r)))
  {
    var t := Next(w, Enter(rejected, r));
    if t != w {
      assert t.sent[..|w.sent|] == w.sent && t.sent[|w.sent|] == Post(r, w.refresh.value);
    }
  }

  lemma CallsServer(w: World, step: ServerStep)
    requires CallsMatchPosts(w)
    ensures CallsMatchPosts(Next(w, ServerSide(step)))
  {
    var t := Next(w, ServerSide(step));
    if step.Swap? && t != w {
      var wins := t.server.wins;
      assert forall i | 0 <= i < |w.server.wins| :: wins[i] == w.server.wins[i];
      assert |wins| > |w.server.wins| ==> wins[|wins| - 1].request == step.request;
    }
  }

  lemma IssuedStays(s: Server, step: ServerStep, token: Token)
    requires Issued(s, token)
    ensures Issued(ServerNext(s, step), token)
  {
    var t := ServerNext(s, step);
    assert t.wins[..|s.wins|] == s.wins;
    if i :| 0 <= i < |s.wins| && s.wins[i].token == token {
      assert t.wins[i].token == token;
    } else if t.sessions[token.session].secret != token.secret {
      assert t.wins[|s.wins|].token == token;
    }
  }

  lemma TokensStep(w: World, step: Step)
    requires TokensWereIssued(w)
    ensures TokensWereIssued(Next(w, step))
  {
    match step
    case Enter(rejected, r) => TokensEnter(w, rejected, r);
    case Answer => TokensAnswer(w);
    case LoginIssued(l, id) => TokensServer(w, Issue(id));
    case ServerSide(own) => if OwnStep(own) { TokensServer(w, own); }
    case _ =>
  }

  lemma TokensAnswer(w: World)
    requires TokensWereIssued(w)
    ensures TokensWereIssued(Next(w, Answer))
  {
  }

  lemma TokensEnter(w: World, rejected: Option<nat>, r: nat)
    requires TokensWereIssued(w)
    ensures TokensWereIssued(Next(w, Enter(rejected, r)))
  {
    var t := Next(w, Enter(rejected, r));
    if t != w {
      assert t.sent[..|w.sent|] == w.sent && t.sent[|w.sent|].token == w.refresh.value;
      assert forall token | Issued(w.server, token) :: Issued(t.server, token);
    }
  }

  lemma TokensServer(w: World, step: ServerStep)
    requires TokensWereIssued(w) && !step.Arrive?
    ensures TokensWereIssued(w.(server := ServerNext(w.server, step)))
  {
    ServerStepKeeps(w.server, step);
    forall token | Issued(w.server, token) ensures Issued(ServerNext(w.server, step), token) {
      IssuedStays(w.server, step, token);
    }
  }

  lemma {:induction false} RunKeeps(steps: seq<Step>)
    ensures CallsMatchPosts(Run(START, steps)) && TokensWereIssued(Run(START, steps))
    decreases |steps|
  {
    if steps != [] {
      RunKeeps(steps[..|steps| - 1]);
      CallsStep(Run(START, steps[..|steps| - 1]), steps[|steps| - 1]);
      TokensStep(Run(START, steps[..|steps| - 1]), steps[|steps| - 1]);
    }
  }

  // ---------------------------------------------------------------- when reuse is detected

  predicate Live(s: Server, id: nat) {
    id in s.sessions && !s.sessions[id].revoked && !s.sessions[id].expired
  }

  /** The server calls this request theft. */
  predicate JudgedTheft(w: World, x: nat) {
    x in w.server.requests && w.server.requests[x].Reused?
  }

  /** The request waits for its session, which is live, and another call has exchanged the
      secret that it carries. */
  predicate Suspect(w: World, x: nat) {
    && x in w.server.requests && w.server.requests[x].Arrived?
    && Live(w.server, w.server.requests[x].token.session)
    && (exists i | 0 <= i < |w.server.wins| ::
          w.server.wins[i].token == w.server.requests[x].token && w.server.wins[i].request != x)
  }

  /** When exactly reuse is detected, at any step of any run, whatever is cancelled: when a
      suspect request reads its session. */
  lemma ReuseExactly(steps: seq<Step>, step: Step, x: nat)
    requires !JudgedTheft(Run(START, steps), x)
    ensures JudgedTheft(Next(Run(START, steps), step), x) <==>
      step == ServerSide(ReadSession(x)) && Suspect(Run(START, steps), x)
  {
    RunKeeps(steps);
    if step == ServerSide(ReadSession(x)) {
      ReadJudges(Run(START, steps), x);
    } else {
      OnlyReadsJudge(Run(START, steps), step, x);
    }
  }

  lemma OnlyReadsJudge(w: World, step: Step, x: nat)
    requires step != ServerSide(ReadSession(x)) && !JudgedTheft(w, x)
    ensures !JudgedTheft(Next(w, step), x)
  {
  }

  lemma ReadJudges(w: World, x: nat)
    requires CallsMatchPosts(w) && TokensWereIssued(w) && !JudgedTheft(w, x)
    ensures JudgedTheft(Next(w, ServerSide(ReadSession(x))), x) <==> Suspect(w, x)
  {
    if x in w.server.requests && w.server.requests[x].Arrived? {
      var token := w.server.requests[x].token;
      assert Carried(w.server.requests[x]) == Some(token) && Issued(w.server, token);
      if i :| 0 <= i < |w.server.wins| && w.server.wins[i].token == token {
        assert w.server.wins[i] in w.sent;
      }
    }
  }

  lemma {:induction false} JudgedWhenRead(steps: seq<Step>, x: nat)
    requires JudgedTheft(Run(START, steps), x)
    ensures exists m: nat | m < |steps| ::
      steps[m] == ServerSide(ReadSession(x)) && Suspect(Run(START, steps[..m]), x)
    decreases |steps|
  {
    if steps != [] {
      var last := |steps| - 1;
      if JudgedTheft(Run(START, steps[..last]), x) {
        JudgedWhenRead(steps[..last], x);
        var m: nat :| m < last && steps[m] == ServerSide(ReadSession(x)) && Suspect(Run(START, steps[..last][..m]), x);
        assert steps[..last][..m] == steps[..m];
      } else {
        ReuseExactly(steps[..last], steps[last], x);
      }
    }
  }

  // ---------------------------------------------------------------- when a token is posted again

  /** The tokens that cannot have been posted yet: with a login, or granted and unanswered. */
  function Unposted(w: World, p: Place): Option<Token> {
    match p
    case Stored => None
    case InLogin(l) => if l in w.logins then w.logins[l] else None
    case InRequest(r) =>
      if r in w.server.requests && w.server.requests[r].Granted? then Some(w.server.requests[r].token) else None
  }

  ghost predicate UnpostedAreNew(w: World) {
    && (forall p: Place | Unposted(w, p).Some? ::
          Unposted(w, p).value.secret < w.server.supply && Unposted(w, p) != w.refresh
          && forall i | 0 <= i < |w.sent| :: w.sent[i].token != Unposted(w, p).value)
    && (forall p: Place, q: Place | p != q && Unposted(w, p).Some? && Unposted(w, q).Some? ::
          Unposted(w, p).value != Unposted(w, q).value)
    && (forall i | 0 <= i < |w.sent| :: w.sent[i].token.secret < w.server.supply)
    && (w.refresh.Some? ==> w.refresh.value.secret < w.server.supply)
  }

  lemma UnpostedStep(w: World, step: Step)
    requires UnpostedAreNew(w)
    ensures UnpostedAreNew(Next(w, step))
  {
    var t := Next(w, step);
    if t != w {
      match step
      case LoginStart(_) => UnpostedLogin(w, step);
      case LoginIssued(_, _) => UnpostedLogin(w, step);
      case LoginDone(_) => UnpostedLogin(w, step);
      case Answer => UnpostedAnswer(w);
      case ServerSide(own) => UnpostedServer(w, own);
      case _ =>
        forall p: Place ensures Unposted(t, p) == Unposted(w, p) {
        }
    }
  }

  lemma UnpostedAnswer(w: World)
    requires UnpostedAreNew(w)
    ensures UnpostedAreNew(Next(w, Answer))
  {
    var t := Next(w, Answer);
    if t != w {
      var r := w.lock.value.request;
      forall p: Place ensures Unposted(t, p) == if p == InRequest(r) then None else Unposted(w, p) {
      }
      assert t.refresh == Unposted(w, InRequest(r));
    }
  }

  lemma UnpostedLogin(w: World, step: Step)
    requires UnpostedAreNew(w) && (step.LoginStart? || step.LoginIssued? || step.LoginDone?)
    ensures UnpostedAreNew(Next(w, step))
  {
    var t := Next(w, step);
    if t != w {
      match step
      case LoginStart(l) =>
        forall p: Place ensures Unposted(t, p) == Unposted(w, p) {
        }
      case LoginIssued(l, id) =>
        forall p: Place ensures Unposted(t, p) ==
          if p == InLogin(l) then Some(Token(id, w.server.supply)) else Unposted(w, p)
        {
        }
      case LoginDone(l) =>
        forall p: Place ensures Unposted(t, p) == if p == InLogin(l) then None else Unposted(w, p) {
        }
        assert t.refresh == Unposted(w, InLogin(l));
    }
  }

  lemma UnpostedServer(w: World, step: ServerStep)
    requires UnpostedAreNew(w) && OwnStep(step)
    ensures UnpostedAreNew(Next(w, ServerSide(step)))
  {
    var t := Next(w, ServerSide(step));
    forall p: Place ensures Unposted(t, p) == Unposted(w, p)
      || (step.Swap? && p == InRequest(step.request) && t.server.supply == w.server.supply + 1
          && Unposted(t, p).Some? && Unposted(t, p).value.secret == w.server.supply)
    {
    }
  }

  lemma {:induction false} RunUnposted(steps: seq<Step>)
    ensures UnpostedAreNew(Run(START, steps))
    decreases |steps|
  {
    if steps != [] {
      RunUnposted(steps[..|steps| - 1]);
      UnpostedStep(Run(START, steps[..|steps| - 1]), steps[|steps| - 1]);
    }
  }

  /** Step `n` of the run cancels this post while its token is stored. */
  predicate CancelsAt(steps: seq<Step>, n: nat, p: Post) {
    n < |steps| && steps[n].Cancelled?
    && Run(START, steps[..n]).lock == Some(p) && Run(START, steps[..n]).refresh == Some(p.token)
  }

  ghost predicate Dropped(steps: seq<Step>, p: Post) {
    exists n: nat :: CancelsAt(steps, n, p)
  }

  lemma DroppedStays(steps: seq<Step>, p: Post)
    requires steps != [] && Dropped(steps[..|steps| - 1], p)
    ensures Dropped(steps, p)
  {
    var n: nat :| CancelsAt(steps[..|steps| - 1], n, p);
    assert steps[..|steps| - 1][..n] == steps[..n];
    assert CancelsAt(steps, n, p);
  }

  /** A stored token that was posted is the one in flight, or a cancellation left it. */
  ghost predicate LeftoversWereDropped(steps: seq<Step>) {
    var w := Run(START, steps);
    forall i | 0 <= i < |w.sent| && w.refresh == Some(w.sent[i].token) ::
      w.lock == Some(w.sent[i]) || Dropped(steps, w.sent[i])
  }

  lemma {:induction false} RunLeftovers(steps: seq<Step>)
    ensures LeftoversWereDropped(steps)
    decreases |steps|
  {
    if steps != [] {
      var n := |steps| - 1;
      var w, t := Run(START, steps[..n]), Run(START, steps);
      RunLeftovers(steps[..n]);
      RunUnposted(steps[..n]);
      forall i | 0 <= i < |t.sent| && t.refresh == Some(t.sent[i].token)
        ensures t.lock == Some(t.sent[i]) || Dropped(steps, t.sent[i])
      {
        LeftoverStep(w, steps[n], i);
        if i < |w.sent| {
          if Dropped(steps[..n], w.sent[i]) { DroppedStays(steps, w.sent[i]); }
          if w.lock == Some(w.sent[i]) && steps[n].Cancelled? { assert CancelsAt(steps, n, w.sent[i]); }
        }
      }
    }
  }

  /** A step stores no token that was posted before it, and only a cancellation gives up
      the lock and keeps the token. */
  lemma LeftoverStep(w: World, step: Step, i: nat)
    requires UnpostedAreNew(w) && i < |Next(w, step).sent|
    ensures var t := Next(w, step);
      t.refresh != Some(t.sent[i].token) || t.lock == Some(t.sent[i]) ||
      (i < |w.sent| && t.sent[i] == w.sent[i] && w.refresh == t.refresh
       && (w.lock != t.lock ==> w.lock.None? || step.Cancelled?))
  {
    var t := Next(w, step);
    if t != w {
      match step
      case Answer =>
        assert t.refresh == Unposted(w, InRequest(w.lock.value.request));
      case LoginDone(l) => assert t.refresh == Unposted(w, InLogin(l));
      case _ =>
    }
  }

  /** A token is posted a second time only after the first post was cancelled while the
      token was still stored. */
  lemma {:induction false} PostedAgain(steps: seq<Step>, i: nat, j: nat)
    requires i < j < |Run(START, steps).sent|
    requires Run(START, steps).sent[i].token == Run(START, steps).sent[j].token
    ensures Dropped(steps, Run(START, steps).sent[i])
    decreases |steps|
  {
    if steps != [] {
      var n := |steps| - 1;
      var w, t := Run(START, steps[..n]), Run(START, steps);
      assert t.sent[..|w.sent|] == w.sent;
      if j < |w.sent| {
        PostedAgain(steps[..n], i, j);
      } else {
        assert t.sent[j].token == w.refresh.value && w.lock.None?;
        RunLeftovers(steps[..n]);
      }
      DroppedStays(steps, w.sent[i]);
    }
  }

  // ---------------------------------------------------------------- without cancellation

  /** Any number of tasks, logins and logouts, any network failures, any revocations: as
      long as no post is cancelled the client never sends the same refresh token twice. */
  lemma NeverSentTwice(steps: seq<Step>, i: nat, j: nat)
    requires NoCancellation(steps) && i < j < |Run(START, steps).sent|
    ensures Run(START, steps).sent[i].token != Run(START, steps).sent[j].token
  {
    if Run(START, steps).sent[i].token == Run(START, steps).sent[j].token { PostedAgain(steps, i, j); }
  }

  /** Two different calls with one token are two posts of it. */
  lemma InOrder(w: World, p: Post, q: Post) returns (i: nat, j: nat)
    requires p in w.sent && q in w.sent && p != q
    ensures i < j < |w.sent| && {w.sent[i], w.sent[j]} == {p, q}
  {
    i :| i < |w.sent| && w.sent[i] == p;
    j :| j < |w.sent| && w.sent[j] == q;
    if j < i { i, j := j, i; }
  }

  /** A suspect request and the call that exchanged its secret are two posts of one token. */
  lemma SuspectWasSentTwice(w: World, x: nat) returns (i: nat, j: nat)
    requires Suspect(w, x) && CallsMatchPosts(w)
    ensures i < j < |w.sent| && w.sent[i].token == w.sent[j].token == w.server.requests[x].token
    ensures w.sent[i].request == x || w.sent[i] in w.server.wins
  {
    var k :| 0 <= k < |w.server.wins|
      && w.server.wins[k].token == w.server.requests[x].token && w.server.wins[k].request != x;
    var p, q := Post(x, w.server.requests[x].token), w.server.wins[k];
    i, j := InOrder(w, p, q);
    assert w.sent[i] in {p, q} && w.sent[j] in {p, q};
  }

  /** So one of them was cancelled and left its token behind. */
  lemma SuspectWasDropped(steps: seq<Step>, x: nat) returns (p: Post)
    requires Suspect(Run(START, steps), x)
    ensures Dropped(steps, p) && p.token == Run(START, steps).server.requests[x].token
    ensures p.request == x || p in Run(START, steps).server.wins
  {
    RunKeeps(steps);
    var i, j := SuspectWasSentTwice(Run(START, steps), x);
    PostedAgain(steps, i, j);
    p := Run(START, steps).sent[i];
  }

  /** And so the server never finds a reused secret, and never revokes a session for it. */
  lemma ReuseIsNeverDetected(steps: seq<Step>, x: nat)
    requires NoCancellation(steps)
    ensures !JudgedTheft(Run(START, steps), x)
  {
    if JudgedTheft(Run(START, steps), x) {
      JudgedWhenRead(steps, x);
      var m: nat :| m < |steps| && steps[m] == ServerSide(ReadSession(x)) && Suspect(Run(START, steps[..m]), x);
      var p := SuspectWasDropped(steps[..m], x);
    }
  }

  // ---------------------------------------------------------------- one cancellation

  predicate OneCancellation(steps: seq<Step>) {
    forall i, j | 0 <= i < |steps| && 0 <= j < |steps| && steps[i].Cancelled? && steps[j].Cancelled? :: i == j
  }

  lemma AtMostTwice(steps: seq<Step>, i: nat, j: nat, k: nat)
    requires OneCancellation(steps) && i < j < k < |Run(START, steps).sent|
    ensures !(Run(START, steps).sent[i].token == Run(START, steps).sent[j].token == Run(START, steps).sent[k].token)
  {
    var w := Run(START, steps);
    if w.sent[i].token == w.sent[j].token == w.sent[k].token {
      RunKeeps(steps);
      PostedAgain(steps, i, j);
      PostedAgain(steps, j, k);
    }
  }

  /** When exactly a cancelled refresh looks like theft. On any run with one cancellation,
      whatever the client does around it, `x` and `y` are the two calls that carry one
      token, in either order: reading its session `x` is judged theft exactly when it has
      not read before, `y` has exchanged the secret, and the session is neither revoked nor
      expired. */
  lemma CancellationLooksLikeTheft(steps: seq<Step>, x: nat, y: nat, token: Token)
    requires OneCancellation(steps) && x != y
    requires Post(x, token) in Run(START, steps).sent && Post(y, token) in Run(START, steps).sent
    requires !JudgedTheft(Run(START, steps), x)
    ensures var w := Run(START, steps);
      JudgedTheft(Next(w, ServerSide(ReadSession(x))), x) <==>
        x in w.server.requests && w.server.requests[x] == Arrived(token)
        && Post(y, token) in w.server.wins && Live(w.server, token.session)
  {
    var w := Run(START, steps);
    RunKeeps(steps);
    ReuseExactly(steps, ServerSide(ReadSession(x)), x);
    if x in w.server.requests && w.server.requests[x].Arrived? {
      OneCallOnePost(w, Post(x, token), Post(x, w.server.requests[x].token));
      forall p | p in w.server.wins && p.token == token && p.request != x ensures p.request == y {
        if p.request != y { ThreeCalls(steps, x, y, p.request, token); }
      }
    }
  }

  lemma OneCallOnePost(w: World, p: Post, q: Post)
    requires CallsMatchPosts(w) && p in w.sent && q in w.sent && p.request == q.request
    ensures p == q
  {
    var a: nat :| a < |w.sent| && w.sent[a] == p;
    var b: nat :| b < |w.sent| && w.sent[b] == q;
  }

  lemma ThreeCalls(steps: seq<Step>, x: nat, y: nat, z: nat, token: Token)
    requires OneCancellation(steps) && x != y && y != z && x != z
    requires Post(x, token) in Run(START, steps).sent && Post(y, token) in Run(START, steps).sent
    ensures Post(z, token) !in Run(START, steps).sent
  {
    var sent := Run(START, steps).sent;
    if Post(z, token) in sent {
      var a: nat :| a < |sent| && sent[a] == Post(x, token);
      var b: nat :| b < |sent| && sent[b] == Post(y, token);
      var c: nat :| c < |sent| && sent[c] == Post(z, token);
      ThreePosts(steps, a, b, c);
    }
  }

  lemma ThreePosts(steps: seq<Step>, a: nat, b: nat, c: nat)
    requires OneCancellation(steps) && a < |Run(START, steps).sent| && b < |Run(START, steps).sent|
      && c < |Run(START, steps).sent|
    requires a != b && b != c && a != c
    ensures !(Run(START, steps).sent[a].token == Run(START, steps).sent[b].token == Run(START, steps).sent[c].token)
  {
    var low := if a < b && a < c then a else if b < c then b else c;
    var high := if a > b && a > c then a else if b > c then b else c;
    AtMostTwice(steps, low, a + b + c - low - high, high);
  }

  /** The lock holder's token is still stored and exchangeable or exchanged. */
  predicate Endangered(w: World) {
    && w.lock.Some? && w.refresh == Some(w.lock.value.token)
    && w.lock.value.request in w.server.requests && Carried(w.server.requests[w.lock.value.request]).Some?
    && Live(w.server, w.lock.value.token.session)
  }

  lemma RunMore(w: World, steps: seq<Step>, step: Step)
    ensures Run(w, steps + [step]) == Next(Run(w, steps), step)
  {
    assert (steps + [step])[..|steps|] == steps;
  }

  lemma {:induction false} RunConcat(w: World, steps: seq<Step>, more: seq<Step>)
    ensures Run(w, steps + more) == Run(Run(w, steps), more)
    decreases |more|
  {
    if more == [] {
      assert steps + more == steps;
    } else {
      assert (steps + more)[..|steps + more| - 1] == steps + more[..|more| - 1];
      RunConcat(w, steps, more[..|more| - 1]);
    }
  }

  /** The call will neither exchange its secret nor read its session any more. */
  predicate Over(w: World, q: nat) {
    && q in w.server.requests
    && (w.server.requests[q].Denied? || w.server.requests[q].Reused? || w.server.requests[q].Closed?)
    && forall i | 0 <= i < |w.server.wins| :: w.server.wins[i].request != q
  }

  predicate Ended(w: World, id: nat) { id in w.server.sessions && !Live(w.server, id) }

  lemma OverStep(w: World, step: Step, q: nat)
    requires Over(w, q)
    ensures Over(Next(w, step), q)
  {
  }

  lemma EndedStep(w: World, step: Step, id: nat)
    requires Ended(w, id)
    ensures Ended(Next(w, step), id)
  {
  }

  lemma {:induction false} OverStays(w: World, steps: seq<Step>, q: nat)
    requires Over(w, q)
    ensures Over(Run(w, steps), q)
    decreases |steps|
  {
    if steps != [] {
      OverStays(w, steps[..|steps| - 1], q);
      OverStep(Run(w, steps[..|steps| - 1]), steps[|steps| - 1], q);
    }
  }

  lemma {:induction false} EndedStays(w: World, steps: seq<Step>, id: nat)
    requires Ended(w, id)
    ensures Ended(Run(w, steps), id)
    decreases |steps|
  {
    if steps != [] {
      EndedStays(w, steps[..|steps| - 1], id);
      EndedStep(Run(w, steps[..|steps| - 1]), steps[|steps| - 1], id);
    }
  }

  /** A post that was in flight at `w` and was later exchanged, or is still to be read, in a
      session still live. */
  lemma WasDangerous(w: World, more: seq<Step>, p: Post)
    requires CallsMatchPosts(w) && TokensWereIssued(w) && w.lock == Some(p) && w.refresh == Some(p.token)
    requires var t := Run(w, more);
      Live(t.server, p.token.session)
      && (p in t.server.wins || (p.request in t.server.requests && t.server.requests[p.request].Arrived?))
    ensures Endangered(w)
  {
    if !Live(w.server, p.token.session) {
      EndedStays(w, more, p.token.session);
    } else if Carried(w.server.requests[p.request]).None? {
      assert Over(w, p.request);
      OverStays(w, more, p.request);
    }
  }

  predicate CancelledOnlyAt(steps: seq<Step>, n: nat) {
    forall i | 0 <= i < |steps| && steps[i].Cancelled? :: i == n
  }

  lemma DroppedThere(steps: seq<Step>, n: nat, m: nat, p: Post)
    requires CancelledOnlyAt(steps, n) && m <= |steps| && Dropped(steps[..m], p)
    ensures n < m && Run(START, steps[..n]).lock == Some(p) && Run(START, steps[..n]).refresh == Some(p.token)
  {
    var c: nat :| CancelsAt(steps[..m], c, p);
    assert steps[c].Cancelled?;
    assert steps[..m][..c] == steps[..c];
  }

  lemma SuspectMeansDanger(steps: seq<Step>, n: nat, m: nat, x: nat)
    requires CancelledOnlyAt(steps, n) && m <= |steps| && Suspect(Run(START, steps[..m]), x)
    ensures n < m && Endangered(Run(START, steps[..n]))
  {
    var p := SuspectWasDropped(steps[..m], x);
    DroppedThere(steps, n, m, p);
    assert steps[..m] == steps[..n] + steps[n..m];
    RunConcat(START, steps[..n], steps[n..m]);
    RunKeeps(steps[..n]);
    WasDangerous(Run(START, steps[..n]), steps[n..m], p);
  }

  /** A run that is cancelled once, as one list of steps. */
  lemma OneList(steps: seq<Step>, more: seq<Step>) returns (all: seq<Step>)
    requires NoCancellation(steps) && NoCancellation(more)
    ensures CancelledOnlyAt(all, |steps|) && |steps| < |all| && all[..|steps|] == steps
    ensures Run(START, all) == Run(Next(Run(START, steps), Cancelled), more)
  {
    all := steps + [Cancelled] + more;
    RunMore(START, steps, Cancelled);
    RunConcat(START, steps + [Cancelled], more);
  }

  lemma ReuseNeedsDanger(steps: seq<Step>, more: seq<Step>, x: nat)
    requires NoCancellation(steps) && NoCancellation(more)
    requires JudgedTheft(Run(Next(Run(START, steps), Cancelled), more), x)
    ensures Endangered(Run(START, steps))
  {
    var all := OneList(steps, more);
    JudgedWhenRead(all, x);
    var m: nat :| m < |all| && all[m] == ServerSide(ReadSession(x)) && Suspect(Run(START, all[..m]), x);
    SuspectMeansDanger(all, |steps|, m, x);
  }

  lemma ReadJudgesSpent(w: World, r: nat)
    requires r in w.server.requests && w.server.requests[r].Arrived?
    requires var t := w.server.requests[r].token;
      Live(w.server, t.session) && w.server.sessions[t.session].secret != t.secret
    ensures JudgedTheft(Run(w, [ServerSide(ReadSession(r))]), r)
  {
    RunMore(w, [], ServerSide(ReadSession(r)));
    assert [] + [ServerSide(ReadSession(r))] == [ServerSide(ReadSession(r))];
  }

  /** A call whose secret is the current one exchanges it. */
  lemma Exchanges(w: World, q: nat) returns (more: seq<Step>)
    requires q in w.server.requests && (w.server.requests[q].Arrived? || w.server.requests[q].Swapping?)
    requires var t := w.server.requests[q].token;
      && Live(w.server, t.session) && w.server.sessions[t.session].secret == t.secret < w.server.supply
    ensures NoCancellation(more)
    ensures var id, z := w.server.requests[q].token.session, Run(w, more);
      && Live(z.server, id) && z.server.sessions[id].secret == w.server.supply
      && forall r | r in w.server.requests && r != q ::
           r in z.server.requests && z.server.requests[r] == w.server.requests[r]
  {
    more := [];
    if w.server.requests[q].Arrived? {
      RunMore(w, more, ServerSide(ReadSession(q)));
      more := more + [ServerSide(ReadSession(q))];
    }
    RunMore(w, more, ServerSide(Swap(q)));
    more := more + [ServerSide(Swap(q))];
  }

  /** The next task posts the stored token again. */
  lemma SendsAgain(u: World, r: nat, token: Token)
    requires u.lock.None? && u.refresh == Some(token) && r !in u.server.requests
    ensures var more := [Enter(u.access, r)];
      && NoCancellation(more)
      && Run(u, more).server == u.server.(requests := u.server.requests[r := Arrived(token)])
  {
    RunMore(u, [], Enter(u.access, r));
    assert [] + [Enter(u.access, r)] == [Enter(u.access, r)];
  }

  /** The abandoned secret is spent, or its call can still exchange it. */
  lemma SpentOrExchangeable(w: World)
    requires CallsMatchPosts(w) && TokensWereIssued(w) && Endangered(w)
    ensures var q, t := w.lock.value.request, w.lock.value.token;
      && (Exchanged(w.server, t) ==> w.server.sessions[t.session].secret != t.secret)
      && (!Exchanged(w.server, t) ==>
            && (w.server.requests[q].Arrived? || w.server.requests[q].Swapping?) && w.server.requests[q].token == t
            && w.server.sessions[t.session].secret == t.secret < w.server.supply)
  {
    OneCallOneToken(w, w.lock.value.request);
    assert Issued(w.server, w.lock.value.token);
  }

  /** Whoever refreshes next is judged theft if the abandoned call gets ahead. */
  lemma DangerIsReal(w: World, r: nat) returns (more: seq<Step>)
    requires CallsMatchPosts(w) && TokensWereIssued(w) && Endangered(w) && r !in w.server.requests
    ensures NoCancellation(more) && JudgedTheft(Run(Next(w, Cancelled), more), r)
  {
    var u, token := Next(w, Cancelled), w.lock.value.token;
    SpentOrExchangeable(w);
    SendsAgain(u, r, token);
    more := [Enter(u.access, r)];
    if !Exchanged(w.server, token) {
      var swap := Exchanges(Run(u, more), w.lock.value.request);
      RunConcat(u, more, swap);
      more := more + swap;
    }
    ReadJudgesSpent(Run(u, more), r);
    RunConcat(u, more, [ServerSide(ReadSession(r))]);
    more := more + [ServerSide(ReadSession(r))];
  }

  /** The lock holder's call carries the posted token, or has exchanged it. */
  lemma OneCallOneToken(w: World, q: nat)
    requires CallsMatchPosts(w) && w.lock.Some? && q == w.lock.value.request && q in w.server.requests
    ensures w.server.requests[q].Granted? ==> Exchanged(w.server, w.lock.value.token)
    ensures w.server.requests[q].Arrived? || w.server.requests[q].Swapping? ==>
      w.server.requests[q].token == w.lock.value.token
  {
    if w.server.requests[q].Granted? {
      var i :| 0 <= i < |w.server.wins| && w.server.wins[i].request == q;
      OneCallOnePost(w, w.lock.value, w.server.wins[i]);
    } else if w.server.requests[q].Arrived? || w.server.requests[q].Swapping? {
      OneCallOnePost(w, w.lock.value, Post(q, w.server.requests[q].token));
    }
  }

  lemma {:induction false} NewRequest(used: set<nat>) returns (r: nat)
    ensures forall i | i in used :: i < r
  {
    r := 0;
    if i :| i in used {
      var above := NewRequest(used - {i});
      r := if i < above then above else i + 1;
      assert used == used - {i} + {i};
    }
  }

  ghost predicate MayEndInReuse(w: World) {
    exists more, x :: NoCancellation(more) && JudgedTheft(Run(w, more), x)
  }

  /** When exactly a cancellation can end in detected reuse, read off the moment before it:
      the token in flight is still the stored one, its call can still exchange it or has
      exchanged it, and its session is neither revoked nor expired. Otherwise (a login or a
      logout has replaced the token, or the call was denied) every further run without
      another cancellation is safe. */
  lemma CancellationEndangers(steps: seq<Step>)
    requires NoCancellation(steps)
    ensures Endangered(Run(START, steps)) <==> MayEndInReuse(Next(Run(START, steps), Cancelled))
  {
    RunKeeps(steps);
    if Endangered(Run(START, steps)) { DangerShows(Run(START, steps)); }
    if MayEndInReuse(Next(Run(START, steps), Cancelled)) {
      var more, x :| NoCancellation(more) && JudgedTheft(Run(Next(Run(START, steps), Cancelled), more), x);
      ReuseNeedsDanger(steps, more, x);
    }
  }

  lemma DangerShows(w: World)
    requires CallsMatchPosts(w) && TokensWereIssued(w) && Endangered(w)
    ensures MayEndInReuse(Next(w, Cancelled))
  {
    var r := NewRequest(w.server.requests.Keys);
    var more := DangerIsReal(w, r);
  }

  /** A cancellation that leaves no posted token behind (another login or a logout has
      replaced it, or nothing was in flight) is harmless: the next steps are safe for good. */
  lemma CancellationWithoutLeftover(steps: seq<Step>, more: seq<Step>, x: nat)
    requires NoCancellation(steps) && NoCancellation(more)
    requires var w := Run(START, steps); w.lock.Some? ==> w.refresh != Some(w.lock.value.token)
    ensures !JudgedTheft(Run(Next(Run(START, steps), Cancelled), more), x)
  {
    if JudgedTheft(Run(Next(Run(START, steps), Cancelled), more), x) { ReuseNeedsDanger(steps, more, x); }
  }

  predicate PostsTwice(w: World, i: nat, j: nat) {
    i < j < |w.sent| && w.sent[i].token == w.sent[j].token
  }

  ghost predicate MayPostTwice(w: World) {
    exists more, i: nat, j: nat :: NoCancellation(more) && PostsTwice(Run(w, more), i, j)
  }

  /** When exactly a cancellation can make the client post a token twice: when the token in
      flight is still the stored one. */
  lemma CancellationResends(steps: seq<Step>)
    requires NoCancellation(steps)
    ensures var w := Run(START, steps);
      MayPostTwice(Next(w, Cancelled)) <==> w.lock.Some? && w.refresh == Some(w.lock.value.token)
  {
    var w := Run(START, steps);
    if w.lock.Some? && w.refresh == Some(w.lock.value.token) {
      RunKeeps(steps);
      Resends(w);
    }
    if MayPostTwice(Next(w, Cancelled)) {
      var more, i: nat, j: nat :| NoCancellation(more) && PostsTwice(Run(Next(w, Cancelled), more), i, j);
      PostingNeedsLeftover(steps, more, i, j);
    }
  }

  lemma PostingNeedsLeftover(steps: seq<Step>, more: seq<Step>, i: nat, j: nat)
    requires NoCancellation(steps) && NoCancellation(more)
    requires PostsTwice(Run(Next(Run(START, steps), Cancelled), more), i, j)
    ensures var w := Run(START, steps); w.lock.Some? && w.refresh == Some(w.lock.value.token)
  {
    var all := OneList(steps, more);
    PostedAgain(all, i, j);
    assert all[..|all|] == all;
    DroppedThere(all, |steps|, |all|, Run(START, all).sent[i]);
  }

  lemma Resends(w: World)
    requires CallsMatchPosts(w) && w.lock.Some? && w.refresh == Some(w.lock.value.token)
    ensures MayPostTwice(Next(w, Cancelled))
  {
    var r := NewRequest(w.server.requests.Keys);
    var u, again := Next(w, Cancelled), Enter(w.access, r);
    assert r !in w.server.requests.Keys;
    RunMore(u, [], again);
    assert [] + [again] == [again];
    var i: nat :| i < |w.sent| && w.sent[i] == w.lock.value;
    assert NoCancellation([again]) && PostsTwice(Run(u, [again]), i, |w.sent|);
  }

  // ---------------------------------------------------------------- runs that get there

  const LOGGED_IN: seq<Step> := [LoginStart(0)] + [LoginIssued(0, 0)] + [LoginDone(0)]

  const EXCHANGED: seq<Step> :=
    LOGGED_IN + [Enter(Some(0), 0)] + [ServerSide(ReadSession(0))] + [ServerSide(Swap(0))]

  lemma LoggedIn()
    ensures Run(START, LOGGED_IN) == World(Server(map[0 := Session(0, false, false)], map[], 1, []),
      Some(0), Some(Token(0, 0)), None, map[], [], 1)
  {
    RunMore(START, [], LoginStart(0));
    RunMore(START, [LoginStart(0)], LoginIssued(0, 0));
    RunMore(START, [LoginStart(0)] + [LoginIssued(0, 0)], LoginDone(0));
    assert [] + [LoginStart(0)] == [LoginStart(0)];
    assert map[0 := Some(Token(0, 0))] - {0} == map[];
  }

  /** A granted and unanswered post is reachable: after one login and one refresh. */
  lemma ExchangedButUnanswered()
    ensures var w := Run(START, EXCHANGED);
      && w.lock == Some(Post(0, Token(0, 0))) && w.refresh == Some(Token(0, 0))
      && 0 in w.server.requests && w.server.requests[0] == Granted(Token(0, 1))
      && 0 in w.server.sessions && w.server.sessions[0] == Session(1, false, false)
  {
    LoggedIn();
    RunMore(START, LOGGED_IN, Enter(Some(0), 0));
    RunMore(START, LOGGED_IN + [Enter(Some(0), 0)], ServerSide(ReadSession(0)));
    RunMore(START, LOGGED_IN + [Enter(Some(0), 0)] + [ServerSide(ReadSession(0))], ServerSide(Swap(0)));
  }

  /** The first refresh is cancelled, the second one sends the token again and exchanges it,
      and only then does the server read the session for the first. */
  const OVERTAKEN: seq<Step> :=
    LOGGED_IN + [Enter(Some(0), 0)] + [Cancelled] + [Enter(Some(0), 1)]
      + [ServerSide(ReadSession(1))] + [ServerSide(Swap(1))]

  /** The abandoned call can also be the one judged: it then revokes the session whose new
      token the other call was just granted. */
  lemma AbandonedCallIsJudged()
    ensures var w := Run(START, OVERTAKEN + [ServerSide(ReadSession(0))]);
      var z := Next(w, ServerSide(RevokeReused(0)));
      && JudgedTheft(w, 0)
      && 1 in z.server.requests && z.server.requests[1] == Granted(Token(0, 1))
      && 0 in z.server.sessions && z.server.sessions[0] == Session(1, true, false)
  {
    LoggedIn();
    var a := LOGGED_IN + [Enter(Some(0), 0)];
    RunMore(START, LOGGED_IN, Enter(Some(0), 0));
    RunMore(START, a, Cancelled);
    RunMore(START, a + [Cancelled], Enter(Some(0), 1));
    RunMore(START, a + [Cancelled] + [Enter(Some(0), 1)], ServerSide(ReadSession(1)));
    RunMore(START, a + [Cancelled] + [Enter(Some(0), 1)] + [ServerSide(ReadSession(1))], ServerSide(Swap(1)));
    RunMore(START, OVERTAKEN, ServerSide(ReadSession(0)));
  }
}
