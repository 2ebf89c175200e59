/**
 The browser and the session tables run together, with the questions that earlier page loads left on
 their way: when a refresh of an honest single-tab client is taken for a replay, exactly; and every
 request it makes settles after boundedly many sends and refreshes.
 */
module ClientRuns {
  import opened Wrappers
  import opened Sessions
  import opened SessionSafety
  import opened Client

  // A refresh of this browser as the server met it: with a proof header or not, whether it got past all
  // checks and so rotated the session, and the answer.
  datatype Asked = Asked(token: nat, headed: bool, passed: bool, reply: Reply)

  // `abandoned` are the tokens of refreshes sent by earlier page loads that still travel, `log` is what
  // the server met, in order, and `clock` the time of the last request it met.
  datatype System =
    System(browser: Browser, server: Tables, abandoned: multiset<nat>, log: seq<Asked>, clock: int)

  // `Late` is the arrival of an abandoned refresh, `Other` a request of anybody else to the server.
  datatype Step =
    | Send
    | Response(i: nat, unauthorized: bool)
    | ServerAnswers(proof: Proof, now: int, token: nat)
    | QuestionLost
    | AnswerArrives(lost: bool)
    | LogoutSettles
    | Reload
    | Late(late: nat, proof: Proof, now: int, token: nat)
    | LateLost(late: nat)
    | Other(q: Request)

  // A request of anybody else, for the browser whose login created session `r`: not a login with the key of
  // its device, no use of a token of that login and no end to its sessions, and the password reset of another
  // user. Questions that earlier logins of the same browser left on their way are among these.
  ghost predicate Unrelated(t: Tables, r: nat, q: Request) {
    r < |t.sessions| &&
    var device := t.sessions[r].deviceId;
    match q
    case Register(_, _) => true
    case Login(_, _, thumbprint, _, _) => DeviceByThumbprint(t.devices, thumbprint) != Some(device)
    case Refresh(presented, _, _, _) =>
      forall i :: 0 <= i < |t.sessions| && t.sessions[i].token == presented ==> Root(t.sessions, i) != r
    case Logout(sessionId) => sessionId < |t.sessions| ==> Root(t.sessions, sessionId) != r
    case ResetVerify(email, _, _) =>
      device < |t.devices| ==> UserByEmail(t.users, email) != Some(t.devices[device].userId)
  }

  // The time of a request, if it brings one.
  function TimeOf(q: Request, clock: int): int {
    match q
    case Login(_, _, _, now, _) => now
    case Refresh(_, _, now, _) => now
    case _ => clock
  }

  // The server meets a request of somebody else.
  ghost function Meanwhile(s: System, q: Request): System {
    s.(server := After(s.server, q), clock := TimeOf(q, s.clock))
  }

  // The refresh gets past every check, so its session is rotated.
  predicate Passes(t: Tables, q: Request)
    requires q.Refresh?
  {
    var found := SessionByToken(t.sessions, q.presented);
    found.Some? &&
    var session := t.sessions[found.value];
    && session.deviceId < |t.devices| && !session.revoked && q.now <= session.expiresAt
    && q.proof == Key(t.devices[session.deviceId].thumbprint, true)
  }

  // The server meets a refresh of this browser.
  ghost function Meet(s: System, q: Request): System
    requires q.Refresh?
  {
    var (server, reply) := Serve(s.server, q);
    s.(server := server, clock := q.now,
       log := s.log + [Asked(q.presented, !q.proof.NoHeader?, Passes(s.server, q), reply)])
  }

  ghost function AskServer(s: System, proof: Proof, now: int, token: nat): System
    requires s.browser.refreshing.Asking?
  {
    var asking := s.browser.refreshing;
    var met := Meet(s, Refresh(asking.token, proof, now, token));
    met.(browser := s.browser.(refreshing := Answered(asking.token, asking.starter, Some(Last(met.log).reply))))
  }

  function Last(log: seq<Asked>): Asked
    requires log != []
  {
    log[|log| - 1]
  }

  // The page is loaded anew; a refresh that has not reached the server goes on without it.
  function Reloaded(s: System): System {
    var b := s.browser;
    s.(browser := OnReload(b),
       abandoned := s.abandoned + if b.refreshing.Asking? then multiset{b.refreshing.token} else multiset{})
  }

  // One step in the life of the browser whose login created session `r`, until its user logs in or out or
  // resets the password; a step that is not enabled does nothing. The server's clock never goes back.
  ghost function Apply(s: System, r: nat, step: Step): System {
    var b := s.browser;
    match step
    case Send => s.(browser := OnSend(b))
    case Response(i, unauthorized) => s.(browser := OnResponse(b, i, unauthorized))
    case ServerAnswers(proof, now, token) =>
      if b.refreshing.Asking? && now >= s.clock then AskServer(s, proof, now, token) else s
    case QuestionLost =>
      if b.refreshing.Asking?
      then s.(browser := b.(refreshing := Answered(b.refreshing.token, b.refreshing.starter, None)))
      else s
    case AnswerArrives(lost) => if b.refreshing.Answered? then s.(browser := OnRefreshAnswer(b, lost)) else s
    case LogoutSettles => if b.refreshing.LoggingOut? then s.(browser := OnLogoutSettled(b)) else s
    case Reload => Reloaded(s)
    case Late(late, proof, now, token) =>
      if late in s.abandoned && now >= s.clock
      then Meet(s, Refresh(late, proof, now, token)).(abandoned := s.abandoned - multiset{late})
      else s
    case LateLost(late) => s.(abandoned := s.abandoned - multiset{late})
    case Other(q) => if Unrelated(s.server, r, q) && TimeOf(q, s.clock) >= s.clock then Meanwhile(s, q) else s
  }

  ghost function Run(s: System, r: nat, steps: seq<Step>): System
    decreases steps
  {
    if steps == [] then s else Run(Apply(s, r, steps[0]), r, steps[1..])
  }

  // A refresh is on its way to the server or back.
  predicate MidRefresh(b: Browser) {
    b.refreshing.Asking? || b.refreshing.Answered?
  }

  // The page is never reloaded while a refresh is under way.
  ghost predicate Calm(s: System, r: nat, steps: seq<Step>)
    decreases steps
  {
    steps != [] ==> !(steps[0].Reload? && MidRefresh(s.browser)) && Calm(Apply(s, r, steps[0]), r, steps[1..])
  }

  // Some refresh of this browser was taken for a replay.
  predicate Tripped(log: seq<Asked>) {
    exists k :: 0 <= k < |log| && log[k].reply == ReuseDetected
  }

  // Some token got past the checks and was presented once more, with a proof header.
  predicate AskedAgain(log: seq<Asked>) {
    exists j, k :: 0 <= j < k < |log| && log[j].token == log[k].token && log[j].passed && log[k].headed
  }

  /** The token the browser holds */

  // A token of the family that session `r` started, of a session that is not revoked.
  ghost predicate LiveToken(t: Tables, r: nat, token: nat) {
    var found := SessionByToken(t.sessions, token);
    found.Some? && Root(t.sessions, found.value) == r && !t.sessions[found.value].revoked
  }

  // A token of this family that reuse detection would catch.
  ghost predicate SpentToken(t: Tables, r: nat, token: nat) {
    var found := SessionByToken(t.sessions, token);
    found.Some? && Root(t.sessions, found.value) == r && t.sessions[found.value].revoked
  }

  ghost predicate TokenInv(s: System, r: nat) {
    var b, t := s.browser, s.server;
    && Valid(t) && r < |t.sessions| && s.abandoned == multiset{} && !Tripped(s.log)
    && (b.access ==> b.stored.Some?)
    && match b.refreshing
       case Idle => b.stored.Some? ==> LiveToken(t, r, b.stored.value)
       case LoggingOut => b.stored.None?
       case Asking(token, _) => b.stored == Some(token) && LiveToken(t, r, token)
       case Answered(token, _, reply) =>
         b.stored == Some(token) &&
         (LiveToken(t, r, token) || SpentToken(t, r, token)) &&
         (reply.None? ==> LiveToken(t, r, token)) &&
         (reply.Some? && reply.value.Tokens? ==> LiveToken(t, r, reply.value.token) && SpentToken(t, r, token))
  }

  // Right after a login: the page holds the token just issued and no refresh of this login is under way.
  ghost predicate LoggedIn(s: System, r: nat) {
    TokenInv(s, r) && s.browser.refreshing.Idle? && s.browser.stored.Some? && s.log == [] &&
    s.browser.requests == [] && s.browser.asks == 0
  }

  lemma IssuedTokenIsLive(t: Tables, device: nat, parent: Option<nat>, token: nat, now: int)
    requires var n := GenerateTokens(t, device, parent, token, now); n.1.Tokens? && Valid(n.0)
    requires parent.Some? ==> parent.value < |t.sessions|
    ensures var n := GenerateTokens(t, device, parent, token, now).0;
            LiveToken(n, if parent.None? then |t.sessions| else Root(n.sessions, parent.value), token)
  {
    TokenFinds(GenerateTokens(t, device, parent, token, now).0, |t.sessions|);
  }

  /** A successful login leads to such a state, whatever earlier logins left on its way. */
  lemma LoginStarts(t: Tables, q: Request)
    requires Valid(t) && q.Login? && Serve(t, q).1.Tokens?
    ensures var b := Browser(Some(q.token), true, [], Idle, 0);
            LoggedIn(System(b, After(t, q), multiset{}, [], q.now), |t.sessions|)
  {
    var u := UserByEmail(t.users, q.email).value;
    var (withDevice, device) := LoginDevice(t, u, q.thumbprint);
    ServeKeepsValid(t, q);
    var cleared := withDevice.(sessions := RevokeDevice(withDevice.sessions, device));
    IssuedTokenIsLive(cleared, device, None, q.token, q.now);
  }

  // A question with a token from before the login is then unrelated to it.
  lemma EarlierQuestionIsUnrelated(t: Tables, login: Request, q: Request)
    requires Valid(t) && login.Login? && Serve(t, login).1.Tokens?
    requires q.Refresh? && SessionByToken(t.sessions, q.presented).Some?
    ensures Unrelated(After(t, login), |t.sessions|, q)
  {
    ServeKeepsValid(t, login);
    var n := After(t, login);
    var i := SessionByToken(t.sessions, q.presented).value;
    assert n.sessions[..|t.sessions|][i] == n.sessions[i];
    TokenFinds(n, i);
    RootIsOldest(n.sessions, i);
    forall j | 0 <= j < |n.sessions| && n.sessions[j].token == q.presented
      ensures j == i
    {
      TokenFinds(n, j);
    }
  }

  /** What the server does to this login's tokens */

  // A request that leaves the sessions of a family alone keeps its tokens as they were.
  ghost predicate SparesFamily(t: Tables, n: Tables, r: nat) {
    Grows(t, n) && forall i :: 0 <= i < |t.sessions| && Root(t.sessions, i) == r ==> n.sessions[i] == t.sessions[i]
  }

  lemma SparedToken(t: Tables, n: Tables, r: nat, token: nat)
    requires Valid(t) && Valid(n) && SparesFamily(t, n, r)
    ensures LiveToken(t, r, token) ==> LiveToken(n, r, token)
    ensures SpentToken(t, r, token) ==> SpentToken(n, r, token)
  {
    var found := SessionByToken(t.sessions, token);
    if found.Some? && Root(t.sessions, found.value) == r {
      TokenFinds(n, found.value);
      RootUnchanged(t.sessions, n.sessions, found.value);
    }
  }

  // A family lives on one device.
  lemma {:induction false} FamilyOnOneDevice(t: Tables, x: nat)
    requires Valid(t) && x < |t.sessions|
    ensures Root(t.sessions, x) <= x && t.sessions[Root(t.sessions, x)].deviceId == t.sessions[x].deviceId
  {
    assert SessionOk(t, x);
    if t.sessions[x].parent.Some? {
      FamilyOnOneDevice(t, t.sessions[x].parent.value);
    }
  }

  lemma UnrelatedRefreshSpares(t: Tables, r: nat, q: Request, x: nat)
    requires Valid(t) && q.Refresh? && Unrelated(t, r, q) && x < |t.sessions| && Root(t.sessions, x) == r
    ensures x < |After(t, q).sessions| && After(t, q).sessions[x] == t.sessions[x]
  {
    ServeKeepsValid(t, q);
    var found := SessionByToken(t.sessions, q.presented);
    if found.Some? && t.sessions[found.value].revoked {
      ReplaySparesOthers(t, found.value, q, x);
    }
  }

  lemma UnrelatedSpares(t: Tables, r: nat, q: Request)
    requires Valid(t) && Unrelated(t, r, q)
    ensures SparesFamily(t, After(t, q), r)
  {
    ServeKeepsValid(t, q);
    forall x | 0 <= x < |t.sessions| && Root(t.sessions, x) == r
      ensures After(t, q).sessions[x] == t.sessions[x]
    {
      FamilyOnOneDevice(t, x);
      assert SessionOk(t, x);
      if q.Refresh? {
        UnrelatedRefreshSpares(t, r, q, x);
      }
    }
  }

  // The live token of the family is rotated when its refresh passes, and left as it is otherwise; it is
  // never taken for a replay.
  lemma LiveTokenServed(t: Tables, r: nat, q: Request)
    requires Valid(t) && q.Refresh? && LiveToken(t, r, q.presented)
    ensures Serve(t, q).1 != ReuseDetected
    ensures if Passes(t, q) then SpentToken(After(t, q), r, q.presented) else After(t, q) == t
    ensures Serve(t, q).1.Tokens? ==> Passes(t, q) && LiveToken(After(t, q), r, Serve(t, q).1.token)
  {
    ServeKeepsValid(t, q);
    var i := SessionByToken(t.sessions, q.presented).value;
    var rotated := t.(sessions := t.sessions[i := Revoked(t.sessions[i])]);
    if Passes(t, q) {
      TokenFinds(After(t, q), i);
      RootUnchanged(t.sessions, After(t, q).sessions, i);
    }
    if Serve(t, q).1.Tokens? {
      IssuedTokenIsLive(rotated, t.sessions[i].deviceId, Some(i), q.token, q.now);
    }
  }

  lemma SpentTokenServed(t: Tables, r: nat, q: Request)
    requires Valid(t) && q.Refresh? && SpentToken(t, r, q.presented)
    ensures !Passes(t, q)
    ensures if q.proof.NoHeader? then After(t, q) == t && Serve(t, q).1 == Unauthorized
            else Serve(t, q).1 == ReuseDetected
  {
    assert SessionOk(t, SessionByToken(t.sessions, q.presented).value);
  }

  /** Runs without a reload in the middle of a refresh */

  lemma TrippedAppend(log: seq<Asked>, a: Asked)
    ensures Tripped(log + [a]) <==> Tripped(log) || a.reply == ReuseDetected
  {
    assert (log + [a])[|log|] == a;
    if Tripped(log) {
      var k :| 0 <= k < |log| && log[k].reply == ReuseDetected;
      assert (log + [a])[k] == log[k];
    }
  }

  lemma ServerKeepsTokens(s: System, r: nat, proof: Proof, now: int, token: nat)
    requires TokenInv(s, r) && s.browser.refreshing.Asking?
    ensures TokenInv(AskServer(s, proof, now, token), r)
  {
    var q := Refresh(s.browser.refreshing.token, proof, now, token);
    ServeKeepsValid(s.server, q);
    LiveTokenServed(s.server, r, q);
    TrippedAppend(s.log, Last(Meet(s, q).log));
  }

  lemma OthersKeepTokens(s: System, r: nat, q: Request)
    requires TokenInv(s, r) && Unrelated(s.server, r, q)
    ensures TokenInv(Meanwhile(s, q), r)
  {
    var n := After(s.server, q);
    ServeKeepsValid(s.server, q);
    UnrelatedSpares(s.server, r, q);
    forall token {
      SparedToken(s.server, n, r, token);
    }
  }

  // How the stored token and the shared refresh may change while the page stays.
  predicate Moved(b: Browser, n: Browser) {
    || (n.stored == b.stored && n.refreshing == b.refreshing && n.access == b.access)
    || (b.refreshing.Idle? && b.stored.Some? && n.stored == b.stored && n.access == b.access &&
        n.refreshing == Asking(b.stored.value, Interceptor))
    || (b.refreshing.Asking? && n.stored == b.stored && n.access == b.access &&
        n.refreshing == Answered(b.refreshing.token, b.refreshing.starter, None))
    || (b.refreshing.Answered? && b.refreshing.reply.Some? && b.refreshing.reply.value.Tokens? &&
        n.stored == Some(b.refreshing.reply.value.token) && n.refreshing.Idle?)
    || (b.refreshing.Answered? && n.stored.None? && !n.access && (n.refreshing.Idle? || n.refreshing.LoggingOut?))
    || (b.refreshing.LoggingOut? && n.stored == b.stored && n.access == b.access && n.refreshing.Idle?)
  }

  // The step only changes the browser: the server meets nothing.
  predicate IsLocal(step: Step) {
    !step.ServerAnswers? && !step.Late? && !step.Other?
  }

  lemma LocalMoves(s: System, r: nat, step: Step)
    requires IsLocal(step)
    ensures var n := Apply(s, r, step);
            && n.server == s.server && n.log == s.log && n.clock == s.clock
            && if step.Reload? then n == Reloaded(s)
               else Moved(s.browser, n.browser) && forall token :: token in n.abandoned ==> token in s.abandoned
  {}

  // Without a reload in the middle of a refresh no question is abandoned.
  lemma LocalKeepsNone(s: System, r: nat, step: Step)
    requires IsLocal(step) && s.abandoned == multiset{} && !(step.Reload? && MidRefresh(s.browser))
    ensures Apply(s, r, step).abandoned == multiset{}
  {}

  lemma MovedKeepsTokens(s: System, n: System, r: nat)
    requires TokenInv(s, r) && n.server == s.server && n.log == s.log && n.abandoned == multiset{}
    requires Moved(s.browser, n.browser) || (n == Reloaded(s) && !MidRefresh(s.browser))
    ensures TokenInv(n, r)
  {}

  lemma StepKeepsTokens(s: System, r: nat, step: Step)
    requires TokenInv(s, r) && !(step.Reload? && MidRefresh(s.browser))
    ensures TokenInv(Apply(s, r, step), r)
  {
    match step {
      case ServerAnswers(proof, now, token) =>
        if s.browser.refreshing.Asking? {
          ServerKeepsTokens(s, r, proof, now, token);
        }
      case Other(q) =>
        if Unrelated(s.server, r, q) {
          OthersKeepTokens(s, r, q);
        }
      case Late(_, _, _, _) =>
      case _ =>
        LocalMoves(s, r, step);
        LocalKeepsNone(s, r, step);
        MovedKeepsTokens(s, Apply(s, r, step), r);
    }
  }

  lemma {:induction false} RunKeepsTokens(s: System, r: nat, steps: seq<Step>)
    requires TokenInv(s, r) && Calm(s, r, steps)
    ensures TokenInv(Run(s, r, steps), r)
    decreases steps
  {
    if steps != [] {
      StepKeepsTokens(s, r, steps[0]);
      RunKeepsTokens(Apply(s, r, steps[0]), r, steps[1..]);
    }
  }

  /**
   An honest client whose page is not reloaded in the middle of a refresh never trips reuse detection: in
   any run from a login up to the user's next login, logout or password reset, whatever is lost on the
   way and whatever earlier logins left on its way, none of its refreshes is answered as a replay; and each
   one it sends presents the unrevoked tip of its chain, the only live session of its device.
   */
  lemma HonestClientNeverTrips(s: System, r: nat, steps: seq<Step>)
    requires LoggedIn(s, r) && Calm(s, r, steps)
    ensures var n := Run(s, r, steps);
            && !Tripped(n.log)
            && (n.browser.refreshing.Asking? ==>
                  var found := SessionByToken(n.server.sessions, n.browser.refreshing.token);
                  && found.Some? && !n.server.sessions[found.value].revoked
                  && Root(n.server.sessions, found.value) == r
                  && (forall j :: 0 <= j < |n.server.sessions| ==> n.server.sessions[j].parent != found)
                  && (forall j :: 0 <= j < |n.server.sessions| && Some(j) != found ==>
                        n.server.sessions[j].deviceId == n.server.sessions[found.value].deviceId ==>
                          n.server.sessions[j].revoked))
  {
    RunKeepsTokens(s, r, steps);
    var n := Run(s, r, steps);
    if n.browser.refreshing.Asking? {
      LiveIsTip(n.server, SessionByToken(n.server.sessions, n.browser.refreshing.token).value);
    }
  }

  /** Runs with reloads anywhere */

  // Some refresh with this token got past the checks.
  predicate PassedBefore(log: seq<Asked>, token: nat) {
    exists j :: 0 <= j < |log| && log[j].passed && log[j].token == token
  }

  // A token of this login: live, or spent by a refresh of this browser.
  ghost predicate Accounted(s: System, r: nat, token: nat) {
    LiveToken(s.server, r, token) || (SpentToken(s.server, r, token) && PassedBefore(s.log, token))
  }

  // Every token that is stored, asked with, handed out or abandoned.
  predicate Held(s: System, token: nat) {
    var b := s.browser;
    || b.stored == Some(token)
    || (MidRefresh(b) && b.refreshing.token == token)
    || (b.refreshing.Answered? && b.refreshing.reply.Some? && b.refreshing.reply.value.Tokens? &&
        b.refreshing.reply.value.token == token)
    || token in s.abandoned
  }

  // Until the first trip every token is accounted for; a token that has passed stays spent; so the log has
  // a trip exactly when a token that had passed was asked with again.
  ghost predicate LogInv(s: System, r: nat) {
    && Valid(s.server) && r < |s.server.sessions|
    && (Tripped(s.log) <==> AskedAgain(s.log))
    && (forall token :: PassedBefore(s.log, token) ==> exists e :: SpentToken(s.server, e, token))
    && (!Tripped(s.log) ==> forall token :: Held(s, token) ==> Accounted(s, r, token))
  }

  lemma GrowthKeepsSpent(t: Tables, n: Tables, e: nat, token: nat)
    requires Valid(t) && Valid(n) && Grows(t, n) && SpentToken(t, e, token)
    ensures SpentToken(n, e, token)
  {
    var i := SessionByToken(t.sessions, token).value;
    assert n.sessions[..|t.sessions|][i] == n.sessions[i];
    TokenFinds(n, i);
    RootUnchanged(t.sessions, n.sessions, i);
  }

  lemma AskedAgainAppend(log: seq<Asked>, a: Asked)
    ensures AskedAgain(log + [a]) <==> AskedAgain(log) || (PassedBefore(log, a.token) && a.headed)
  {
    var more := log + [a];
    assert forall j :: 0 <= j < |log| ==> more[j] == log[j];
    if AskedAgain(log) {
      var j, k :| 0 <= j < k < |log| && log[j].token == log[k].token && log[j].passed && log[k].headed;
      assert more[j].token == more[k].token && more[j].passed && more[k].headed;
    }
    if PassedBefore(log, a.token) && a.headed {
      var j :| 0 <= j < |log| && log[j].passed && log[j].token == a.token;
      assert more[j].token == more[|log|].token && more[j].passed && more[|log|].headed;
    }
  }

  lemma PassedBeforeAppend(log: seq<Asked>, a: Asked, token: nat)
    ensures PassedBefore(log + [a], token) <==> PassedBefore(log, token) || (a.passed && a.token == token)
  {
    var more := log + [a];
    assert more[|log|] == a;
    if PassedBefore(log, token) {
      var j :| 0 <= j < |log| && log[j].passed && log[j].token == token;
      assert more[j] == log[j];
    }
  }

  lemma PassingSpends(t: Tables, q: Request) returns (e: nat)
    requires Valid(t) && q.Refresh? && Passes(t, q)
    ensures SpentToken(After(t, q), e, q.presented)
  {
    e := Root(t.sessions, SessionByToken(t.sessions, q.presented).value);
    LiveTokenServed(t, e, q);
  }

  // The server's answer is a replay exactly when the token has passed before and the header is there.
  lemma ReplayIff(s: System, r: nat, q: Request)
    requires LogInv(s, r) && q.Refresh? && Held(s, q.presented)
    ensures PassedBefore(s.log, q.presented) && !q.proof.NoHeader? ==> Serve(s.server, q).1 == ReuseDetected
    ensures !Tripped(s.log) && Serve(s.server, q).1 == ReuseDetected ==>
              PassedBefore(s.log, q.presented) && !q.proof.NoHeader?
  {
    if PassedBefore(s.log, q.presented) {
      var e :| SpentToken(s.server, e, q.presented);
      SpentTokenServed(s.server, e, q);
    }
    if !Tripped(s.log) && LiveToken(s.server, r, q.presented) {
      LiveTokenServed(s.server, r, q);
    }
  }

  lemma MeetKeepsSpent(s: System, r: nat, q: Request)
    requires LogInv(s, r) && q.Refresh?
    ensures var n := Meet(s, q);
            forall token :: PassedBefore(n.log, token) ==> exists e :: SpentToken(n.server, e, token)
  {
    var n := Meet(s, q);
    ServeKeepsValid(s.server, q);
    forall token | PassedBefore(n.log, token)
      ensures exists e :: SpentToken(n.server, e, token)
    {
      PassedBeforeAppend(s.log, Last(n.log), token);
      if PassedBefore(s.log, token) {
        var e :| SpentToken(s.server, e, token);
        GrowthKeepsSpent(s.server, n.server, e, token);
      } else {
        var e := PassingSpends(s.server, q);
      }
    }
  }

  lemma OneLiveToken(t: Tables, r: nat, a: nat, b: nat)
    requires Valid(t) && LiveToken(t, r, a) && LiveToken(t, r, b)
    ensures a == b
  {
    var i, j := SessionByToken(t.sessions, a).value, SessionByToken(t.sessions, b).value;
    if i < j {
      OlderIsRevoked(t, i, j);
    } else if j < i {
      OlderIsRevoked(t, j, i);
    }
  }

  // While nothing has tripped, what was accounted for still is.
  lemma MeetKeepsAccounts(s: System, r: nat, q: Request, token: nat)
    requires LogInv(s, r) && q.Refresh? && Held(s, q.presented) && Held(s, token)
    requires !Tripped(s.log) && Serve(s.server, q).1 != ReuseDetected
    ensures Accounted(Meet(s, q), r, token)
  {
    var n := Meet(s, q);
    ServeKeepsValid(s.server, q);
    PassedBeforeAppend(s.log, Last(n.log), token);
    if LiveToken(s.server, r, q.presented) {
      LiveTokenServed(s.server, r, q);
      if Passes(s.server, q) {
        if LiveToken(s.server, r, token) {
          OneLiveToken(s.server, r, q.presented, token);
        } else {
          GrowthKeepsSpent(s.server, n.server, r, token);
        }
      }
    } else {
      SpentTokenServed(s.server, r, q);
    }
  }

  lemma IssuedIsAccounted(s: System, r: nat, q: Request)
    requires LogInv(s, r) && q.Refresh? && Held(s, q.presented)
    requires !Tripped(s.log) && Serve(s.server, q).1.Tokens?
    ensures Accounted(Meet(s, q), r, Serve(s.server, q).1.token)
  {
    if LiveToken(s.server, r, q.presented) {
      LiveTokenServed(s.server, r, q);
    } else {
      SpentTokenServed(s.server, r, q);
    }
  }

  // Meeting a held token keeps all of the invariant that does not depend on what the browser does next.
  lemma MeetKeepsLog(s: System, r: nat, q: Request)
    requires LogInv(s, r) && q.Refresh? && Held(s, q.presented)
    ensures LogInv(Meet(s, q), r)
    ensures var reply := Serve(s.server, q).1;
            !Tripped(Meet(s, q).log) && reply.Tokens? ==> Accounted(Meet(s, q), r, reply.token)
  {
    var n := Meet(s, q);
    ServeKeepsValid(s.server, q);
    TrippedAppend(s.log, Last(n.log));
    AskedAgainAppend(s.log, Last(n.log));
    ReplayIff(s, r, q);
    MeetKeepsSpent(s, r, q);
    if !Tripped(n.log) {
      forall token | Held(n, token)
        ensures Accounted(n, r, token)
      {
        MeetKeepsAccounts(s, r, q, token);
      }
      if Serve(s.server, q).1.Tokens? {
        IssuedIsAccounted(s, r, q);
      }
    }
  }

  lemma AskKeepsLog(s: System, r: nat, proof: Proof, now: int, token: nat)
    requires LogInv(s, r) && s.browser.refreshing.Asking?
    ensures LogInv(AskServer(s, proof, now, token), r)
  {
    var q := Refresh(s.browser.refreshing.token, proof, now, token);
    var met, n := Meet(s, q), AskServer(s, proof, now, token);
    MeetKeepsLog(s, r, q);
    if !Tripped(n.log) {
      forall held | Held(n, held)
        ensures Accounted(n, r, held)
      {
        assert Held(met, held) || Accounted(met, r, held);
      }
    }
  }

  // An abandoned question changes no more than meeting it and forgetting it.
  lemma LateMeets(s: System, r: nat, late: nat, proof: Proof, now: int, token: nat)
    requires late in s.abandoned && now >= s.clock
    ensures var n, met := Apply(s, r, Late(late, proof, now, token)), Meet(s, Refresh(late, proof, now, token));
            && n == System(met.browser, met.server, s.abandoned - multiset{late}, met.log, met.clock)
            && forall held :: held in n.abandoned ==> held in s.abandoned
  {}

  lemma LateKeepsLog(s: System, r: nat, q: Request, n: System)
    requires LogInv(s, r) && q.Refresh? && q.presented in s.abandoned
    requires var met := Meet(s, q); n.browser == met.browser && n.server == met.server && n.log == met.log
    requires forall held :: held in n.abandoned ==> held in s.abandoned
    ensures LogInv(n, r)
  {
    MeetKeepsLog(s, r, q);
    FewerHeld(Meet(s, q), n, r);
  }

  // A step that leaves server and log alone and holds no new token keeps the invariant.
  lemma FewerHeld(s: System, n: System, r: nat)
    requires LogInv(s, r) && n.server == s.server && n.log == s.log
    requires forall token :: Held(n, token) ==> Held(s, token)
    ensures LogInv(n, r)
  {
    forall token | Held(n, token) && !Tripped(n.log)
      ensures Accounted(n, r, token)
    {
      assert Held(s, token);
    }
  }

  lemma OthersKeepLog(s: System, r: nat, q: Request)
    requires LogInv(s, r) && Unrelated(s.server, r, q)
    ensures LogInv(Meanwhile(s, q), r)
  {
    var n := Meanwhile(s, q);
    ServeKeepsValid(s.server, q);
    UnrelatedSpares(s.server, r, q);
    forall token | PassedBefore(s.log, token)
      ensures exists e :: SpentToken(n.server, e, token)
    {
      var e :| SpentToken(s.server, e, token);
      GrowthKeepsSpent(s.server, n.server, e, token);
    }
    forall token | Held(n, token) && !Tripped(s.log)
      ensures Accounted(n, r, token)
    {
      assert Held(s, token);
      SparedToken(s.server, n.server, r, token);
    }
  }

  lemma MovedHoldsFewer(s: System, n: System)
    requires n == Reloaded(s) || Moved(s.browser, n.browser)
    requires n == Reloaded(s) || forall token :: token in n.abandoned ==> token in s.abandoned
    ensures forall token :: Held(n, token) ==> Held(s, token)
  {}

  lemma StepKeepsLog(s: System, r: nat, step: Step)
    requires LogInv(s, r)
    ensures LogInv(Apply(s, r, step), r)
  {
    match step {
      case ServerAnswers(proof, now, token) =>
        if s.browser.refreshing.Asking? {
          AskKeepsLog(s, r, proof, now, token);
        }
      case Late(late, proof, now, token) =>
        if late in s.abandoned && now >= s.clock {
          LateMeets(s, r, late, proof, now, token);
          LateKeepsLog(s, r, Refresh(late, proof, now, token), Apply(s, r, step));
        }
      case Other(q) =>
        if Unrelated(s.server, r, q) {
          OthersKeepLog(s, r, q);
        }
      case _ =>
        LocalMoves(s, r, step);
        MovedHoldsFewer(s, Apply(s, r, step));
        FewerHeld(s, Apply(s, r, step), r);
    }
  }

  lemma {:induction false} RunKeepsLog(s: System, r: nat, steps: seq<Step>)
    requires LogInv(s, r)
    ensures LogInv(Run(s, r, steps), r)
    decreases steps
  {
    if steps != [] {
      StepKeepsLog(s, r, steps[0]);
      RunKeepsLog(Apply(s, r, steps[0]), r, steps[1..]);
    }
  }

  lemma LoginLog(s: System, r: nat)
    requires LoggedIn(s, r)
    ensures LogInv(s, r)
  {
    assert forall token :: !PassedBefore(s.log, token);
  }

  /**
   In every run from a login, with reloads anywhere and refreshes of earlier page loads arriving at any
   later time or never: some refresh of the browser is taken for a replay if and only if some token got
   past the checks of one refresh and was presented with a proof header by a later one.
   */
  lemma TripsIffAskedAgain(s: System, r: nat, steps: seq<Step>)
    requires LoggedIn(s, r)
    ensures var log := Run(s, r, steps).log; Tripped(log) <==> AskedAgain(log)
  {
    LoginLog(s, r);
    RunKeepsLog(s, r, steps);
  }

  /** One reload in the middle of a refresh */

  // From `s` the browser can get into a trip without another reload in the middle of a refresh.
  ghost predicate CanTrip(s: System, r: nat) {
    exists rest :: Calm(s, r, rest) && Tripped(Run(s, r, rest).log)
  }

  lemma SpentTrips(s: System, r: nat, q: Request)
    requires Valid(s.server) && q.Refresh? && SpentToken(s.server, r, q.presented) && !q.proof.NoHeader?
    ensures Tripped(Meet(s, q).log)
  {
    SpentTokenServed(s.server, r, q);
    TrippedAppend(s.log, Last(Meet(s, q).log));
  }

  lemma TripAtOnce(s: System, r: nat, proof: Proof)
    requires Valid(s.server) && s.browser.refreshing.Asking? && SpentToken(s.server, r, s.browser.refreshing.token)
    requires !proof.NoHeader?
    ensures CanTrip(s, r)
  {
    SpentTrips(s, r, Refresh(s.browser.refreshing.token, proof, s.clock, 0));
    RunOne(s, r, ServerAnswers(proof, s.clock, 0));
  }

  lemma RunOne(s: System, r: nat, step: Step)
    requires !step.Reload?
    ensures Calm(s, r, [step]) && Run(s, r, [step]) == Apply(s, r, step)
  {
    assert [step][1..] == [];
  }

  lemma RunTwo(s: System, r: nat, a: Step, b: Step)
    requires !a.Reload? && !b.Reload?
    ensures Calm(s, r, [a, b]) && Run(s, r, [a, b]) == Apply(Apply(s, r, a), r, b)
  {
    assert [a, b][1..] == [b];
    RunOne(Apply(s, r, a), r, b);
  }

  lemma RotateOnTime(t: Tables, r: nat, token: nat, now: int) returns (proof: Proof)
    requires Valid(t) && LiveToken(t, r, token)
    requires now <= t.sessions[SessionByToken(t.sessions, token).value].expiresAt
    ensures !proof.NoHeader?
    ensures var n := After(t, Refresh(token, proof, now, 0)); Valid(n) && SpentToken(n, r, token)
  {
    var i := SessionByToken(t.sessions, token).value;
    assert SessionOk(t, i);
    proof := Key(t.devices[t.sessions[i].deviceId].thumbprint, true);
    ServeKeepsValid(t, Refresh(token, proof, now, 0));
    LiveTokenServed(t, r, Refresh(token, proof, now, 0));
  }

  // The session of this token has not expired by the server's clock.
  ghost predicate InTime(s: System, token: nat) {
    var found := SessionByToken(s.server.sessions, token);
    found.Some? && s.clock <= s.server.sessions[found.value].expiresAt
  }

  // The new page's question is answered first, then the abandoned one arrives.
  lemma TripByLate(s: System, r: nat)
    requires Valid(s.server) && s.browser.refreshing.Asking? && s.browser.refreshing.token in s.abandoned
    requires LiveToken(s.server, r, s.browser.refreshing.token) && InTime(s, s.browser.refreshing.token)
    ensures CanTrip(s, r)
  {
    var token, now := s.browser.refreshing.token, s.clock;
    var proof := RotateOnTime(s.server, r, token, now);
    var first, second := ServerAnswers(proof, now, 0), Late(token, proof, now, 0);
    SpentTrips(Apply(s, r, first), r, Refresh(token, proof, now, 0));
    LateMeets(Apply(s, r, first), r, token, proof, now, 0);
    RunTwo(s, r, first, second);
  }

  // Nothing can be presented any more but x, whose session is live and has expired.
  ghost predicate Expired(s: System, r: nat, x: nat) {
    && Valid(s.server) && r < |s.server.sessions| && !Tripped(s.log)
    && LiveToken(s.server, r, x) && !InTime(s, x)
    && (forall token :: token in s.abandoned ==> token == x)
    && match s.browser.refreshing
       case Idle => s.browser.stored.Some? ==> s.browser.stored == Some(x)
       case LoggingOut => s.browser.stored.None?
       case Asking(token, _) => token == x
       case Answered(_, _, reply) => !(reply.Some? && reply.value.Tokens?)
  }

  // An expired token is turned down and nothing changes.
  lemma MeetExpired(s: System, r: nat, x: nat, q: Request)
    requires Expired(s, r, x) && q.Refresh? && q.presented == x && q.now >= s.clock
    ensures var n := Meet(s, q);
            && n.server == s.server && !Tripped(n.log) && !InTime(n, x) && !Serve(s.server, q).1.Tokens?
  {
    LiveTokenServed(s.server, r, q);
    TrippedAppend(s.log, Last(Meet(s, q).log));
  }

  lemma LateKeepsExpired(s: System, r: nat, x: nat, q: Request, n: System)
    requires Expired(s, r, x) && q.Refresh? && q.presented in s.abandoned && q.now >= s.clock
    requires var met := Meet(s, q);
             n.browser == met.browser && n.server == met.server && n.log == met.log && n.clock == met.clock
    requires forall held :: held in n.abandoned ==> held in s.abandoned
    ensures Expired(n, r, x)
  {
    MeetExpired(s, r, x, q);
  }

  lemma MovedKeepsExpired(s: System, n: System, r: nat, x: nat)
    requires Expired(s, r, x) && n.server == s.server && n.log == s.log && n.clock == s.clock
    requires forall token :: token in n.abandoned ==> token in s.abandoned
    requires Moved(s.browser, n.browser) || (n == Reloaded(s) && !MidRefresh(s.browser))
    ensures Expired(n, r, x)
  {}

  lemma OthersKeepExpired(s: System, r: nat, x: nat, q: Request)
    requires Expired(s, r, x) && Unrelated(s.server, r, q) && TimeOf(q, s.clock) >= s.clock
    ensures Expired(Meanwhile(s, q), r, x)
  {
    ServeKeepsValid(s.server, q);
    UnrelatedSpares(s.server, r, q);
    SparedToken(s.server, After(s.server, q), r, x);
    TokenFinds(After(s.server, q), SessionByToken(s.server.sessions, x).value);
  }

  lemma StepKeepsExpired(s: System, r: nat, x: nat, step: Step)
    requires Expired(s, r, x) && !(step.Reload? && MidRefresh(s.browser))
    ensures Expired(Apply(s, r, step), r, x)
  {
    match step {
      case ServerAnswers(proof, now, token) =>
        if s.browser.refreshing.Asking? && now >= s.clock {
          MeetExpired(s, r, x, Refresh(x, proof, now, token));
        }
      case Late(late, proof, now, token) =>
        if late in s.abandoned && now >= s.clock {
          LateMeets(s, r, late, proof, now, token);
          LateKeepsExpired(s, r, x, Refresh(late, proof, now, token), Apply(s, r, step));
        }
      case Other(q) =>
        if Unrelated(s.server, r, q) && TimeOf(q, s.clock) >= s.clock {
          OthersKeepExpired(s, r, x, q);
        }
      case _ =>
        LocalMoves(s, r, step);
        MovedKeepsExpired(s, Apply(s, r, step), r, x);
    }
  }

  lemma {:induction false} RunKeepsExpired(s: System, r: nat, x: nat, steps: seq<Step>)
    requires Expired(s, r, x) && Calm(s, r, steps)
    ensures Expired(Run(s, r, steps), r, x)
    decreases steps
  {
    if steps != [] {
      StepKeepsExpired(s, r, x, steps[0]);
      RunKeepsExpired(Apply(s, r, steps[0]), r, x, steps[1..]);
    }
  }

  lemma ExpiredCannotTrip(s: System, r: nat, x: nat)
    requires Expired(s, r, x)
    ensures !CanTrip(s, r)
  {
    forall rest | Calm(s, r, rest)
      ensures !Tripped(Run(s, r, rest).log)
    {
      RunKeepsExpired(s, r, x, rest);
    }
  }

  lemma HonestCannotTrip(s: System, r: nat)
    requires TokenInv(s, r)
    ensures !CanTrip(s, r)
  {
    forall rest | Calm(s, r, rest)
      ensures !Tripped(Run(s, r, rest).log)
    {
      RunKeepsTokens(s, r, rest);
    }
  }

  /**
   A page reloaded in the middle of a refresh can be taken for a replay if and only if the token of the
   abandoned refresh is spent already, or the question is still on its way and the server's clock has not
   passed the end of its session. Otherwise, when the question was lost or turned down with the session left
   as it was, or will be turned down as expired, no continuation trips until the next such reload.
   */
  lemma ReloadCanTripIff(s: System, r: nat, steps: seq<Step>)
    requires LoggedIn(s, r) && Calm(s, r, steps) && MidRefresh(Run(s, r, steps).browser)
    ensures var n := Run(s, r, steps);
            CanTrip(Apply(n, r, Reload), r) <==>
            SpentToken(n.server, r, n.browser.refreshing.token) ||
            (n.browser.refreshing.Asking? && InTime(n, n.browser.refreshing.token))
  {
    RunKeepsTokens(s, r, steps);
    var n := Run(s, r, steps);
    var again, token := Apply(n, r, Reload), n.browser.refreshing.token;
    if SpentToken(n.server, r, token) {
      TripAtOnce(again, r, NoKey);
    } else if n.browser.refreshing.Answered? {
      HonestCannotTrip(again, r);
    } else if InTime(n, token) {
      TripByLate(again, r);
    } else {
      ExpiredCannotTrip(again, r, token);
    }
  }

  // Token x got past the checks and was presented once more, with a proof header.
  predicate AskedAgainWith(log: seq<Asked>, x: nat) {
    exists j, k :: 0 <= j < k < |log| && log[j].token == x == log[k].token && log[j].passed && log[k].headed
  }

  // The token is the live one of the login or x.
  ghost predicate Fine(s: System, r: nat, x: nat, token: nat) {
    token == x || LiveToken(s.server, r, token)
  }

  // Until the first trip the tokens that may be presented next are the live one and x, and only x is
  // abandoned; the first trip is one of x.
  ghost predicate OnlyOld(s: System, r: nat, x: nat) {
    && (forall token :: token in s.abandoned ==> token == x)
    && (Tripped(s.log) ==> AskedAgainWith(s.log, x))
    && (!Tripped(s.log) ==>
          match s.browser.refreshing
          case Idle => s.browser.stored.Some? ==> Fine(s, r, x, s.browser.stored.value)
          case LoggingOut => s.browser.stored.None?
          case Asking(token, _) => Fine(s, r, x, token)
          case Answered(_, _, reply) =>
            reply.Some? && reply.value.Tokens? ==> Fine(s, r, x, reply.value.token))
  }

  lemma AskedAgainWithAppend(log: seq<Asked>, a: Asked, x: nat)
    requires AskedAgainWith(log, x) || (PassedBefore(log, x) && a.token == x && a.headed)
    ensures AskedAgainWith(log + [a], x)
  {
    var more := log + [a];
    assert forall j :: 0 <= j < |log| ==> more[j] == log[j];
    if AskedAgainWith(log, x) {
      var j, k :| 0 <= j < k < |log| && log[j].token == x == log[k].token && log[j].passed && log[k].headed;
      assert more[j].passed && more[k].headed;
    } else {
      var j :| 0 <= j < |log| && log[j].passed && log[j].token == x;
      assert more[j].passed && more[|log|].headed;
    }
  }

  // Presenting the live token or x: if this is the first trip, it is one of x; otherwise the token that is
  // live afterwards, if any, is the one just issued or the one that was.
  lemma MeetFine(s: System, r: nat, x: nat, q: Request)
    requires LogInv(s, r) && q.Refresh? && Held(s, q.presented)
    requires if Tripped(s.log) then AskedAgainWith(s.log, x) else Fine(s, r, x, q.presented)
    ensures var n := Meet(s, q); Tripped(n.log) ==> AskedAgainWith(n.log, x)
    ensures var n := Meet(s, q); !Tripped(n.log) ==>
              (Serve(s.server, q).1.Tokens? ==> LiveToken(n.server, r, Serve(s.server, q).1.token)) &&
              forall token :: LiveToken(s.server, r, token) ==> token == q.presented || LiveToken(n.server, r, token)
  {
    var n := Meet(s, q);
    TrippedAppend(s.log, Last(n.log));
    ReplayIff(s, r, q);
    if Tripped(n.log) {
      if !Tripped(s.log) {
        var e :| SpentToken(s.server, e, q.presented);
      }
      AskedAgainWithAppend(s.log, Last(n.log), x);
    } else if LiveToken(s.server, r, q.presented) {
      LiveTokenServed(s.server, r, q);
      forall token | LiveToken(s.server, r, token)
        ensures token == q.presented
      {
        OneLiveToken(s.server, r, q.presented, token);
      }
    } else {
      assert Accounted(s, r, q.presented);
      SpentTokenServed(s.server, r, q);
    }
  }

  lemma LateKeepsOnlyOld(s: System, r: nat, x: nat, q: Request, n: System)
    requires LogInv(s, r) && OnlyOld(s, r, x) && q.Refresh? && q.presented in s.abandoned
    requires var met := Meet(s, q); n.browser == met.browser && n.server == met.server && n.log == met.log
    requires forall held :: held in n.abandoned ==> held in s.abandoned
    ensures OnlyOld(n, r, x)
  {
    MeetFine(s, r, x, q);
    if !Tripped(n.log) {
      TrippedAppend(s.log, Last(n.log));
      assert forall held :: Fine(s, r, x, held) ==> Fine(n, r, x, held);
    }
  }

  lemma AskKeepsOnlyOld(s: System, r: nat, x: nat, proof: Proof, now: int, token: nat)
    requires LogInv(s, r) && OnlyOld(s, r, x) && s.browser.refreshing.Asking?
    ensures OnlyOld(AskServer(s, proof, now, token), r, x)
  {
    var q := Refresh(s.browser.refreshing.token, proof, now, token);
    MeetFine(s, r, x, q);
    TrippedAppend(s.log, Last(Meet(s, q).log));
  }

  lemma MovedKeepsOnlyOld(s: System, n: System, r: nat, x: nat)
    requires OnlyOld(s, r, x) && n.server == s.server && n.log == s.log
    requires forall token :: token in n.abandoned ==> token in s.abandoned
    requires Moved(s.browser, n.browser) || (n == Reloaded(s) && !MidRefresh(s.browser))
    ensures OnlyOld(n, r, x)
  {}

  lemma OthersKeepOnlyOld(s: System, r: nat, x: nat, q: Request)
    requires LogInv(s, r) && OnlyOld(s, r, x) && Unrelated(s.server, r, q)
    ensures OnlyOld(Meanwhile(s, q), r, x)
  {
    OthersKeepFine(s, r, x, q);
  }

  lemma StepKeepsOnlyOld(s: System, r: nat, x: nat, step: Step)
    requires LogInv(s, r) && OnlyOld(s, r, x) && !(step.Reload? && MidRefresh(s.browser))
    ensures OnlyOld(Apply(s, r, step), r, x)
  {
    match step {
      case ServerAnswers(proof, now, token) =>
        if s.browser.refreshing.Asking? {
          AskKeepsOnlyOld(s, r, x, proof, now, token);
        }
      case Late(late, proof, now, token) =>
        if late in s.abandoned && now >= s.clock {
          LateMeets(s, r, late, proof, now, token);
          LateKeepsOnlyOld(s, r, x, Refresh(late, proof, now, token), Apply(s, r, step));
        }
      case Other(q) =>
        if Unrelated(s.server, r, q) {
          OthersKeepOnlyOld(s, r, x, q);
        }
      case _ =>
        LocalMoves(s, r, step);
        MovedKeepsOnlyOld(s, Apply(s, r, step), r, x);
    }
  }

  lemma OthersKeepFine(s: System, r: nat, x: nat, q: Request)
    requires LogInv(s, r) && Unrelated(s.server, r, q)
    ensures forall token :: Fine(s, r, x, token) ==> Fine(Meanwhile(s, q), r, x, token)
  {
    ServeKeepsValid(s.server, q);
    UnrelatedSpares(s.server, r, q);
    forall token {
      SparedToken(s.server, After(s.server, q), r, token);
    }
  }

  lemma {:induction false} RunKeepsOnlyOld(s: System, r: nat, x: nat, steps: seq<Step>)
    requires LogInv(s, r) && OnlyOld(s, r, x) && Calm(s, r, steps)
    ensures LogInv(Run(s, r, steps), r) && OnlyOld(Run(s, r, steps), r, x)
    decreases steps
  {
    if steps != [] {
      StepKeepsLog(s, r, steps[0]);
      StepKeepsOnlyOld(s, r, x, steps[0]);
      RunKeepsOnlyOld(Apply(s, r, steps[0]), r, x, steps[1..]);
    }
  }

  lemma {:induction false} CalmKeepsLog(s: System, r: nat, steps: seq<Step>)
    requires LoggedIn(s, r) && Calm(s, r, steps)
    ensures TokenInv(Run(s, r, steps), r) && LogInv(Run(s, r, steps), r)
  {
    LoginLog(s, r);
    RunKeepsLog(s, r, steps);
    RunKeepsTokens(s, r, steps);
  }

  /**
   What a single reload in the middle of a refresh leads to: whatever follows, until the next such reload,
   some refresh is taken for a replay if and only if the token of the abandoned refresh got past the
   checks, by the abandoned question or by the new page's, and came once more with a proof header.
   */
  lemma ReloadTripsIff(s: System, r: nat, before: seq<Step>, rest: seq<Step>)
    requires LoggedIn(s, r) && Calm(s, r, before) && MidRefresh(Run(s, r, before).browser)
    requires Calm(Apply(Run(s, r, before), r, Reload), r, rest)
    ensures var log := Run(Apply(Run(s, r, before), r, Reload), r, rest).log;
            Tripped(log) <==> AskedAgainWith(log, Run(s, r, before).browser.refreshing.token)
  {
    CalmKeepsLog(s, r, before);
    var n := Run(s, r, before);
    StepKeepsLog(n, r, Reload);
    RunKeepsOnlyOld(Apply(n, r, Reload), r, n.browser.refreshing.token, rest);
  }

  /** Counting sends and refreshes */

  function Sends(r: AppRequest): int {
    r.sends
  }

  function Retries(r: AppRequest): int {
    if r.retry then 1 else 0
  }

  predicate RequestOk(r: AppRequest) {
    1 <= r.sends <= (if r.retry then 2 else 1) && (r.phase.Waiting? ==> r.retry && r.sends == 1)
  }

  // Nothing waits without a refresh to wait for, and at start-up nothing has been sent.
  ghost predicate CountInv(b: Browser) {
    && (forall i :: 0 <= i < |b.requests| ==> RequestOk(b.requests[i]))
    && b.asks <= Sum(Retries, b.requests)
    && (b.refreshing.Idle? ==> forall i :: 0 <= i < |b.requests| ==> !b.requests[i].phase.Waiting?)
    && (StartingUp(b) ==> forall i :: 0 <= i < |b.requests| ==> b.requests[i].phase.Settled?)
  }

  lemma {:induction false} MapKeepsRetries(f: AppRequest -> AppRequest, requests: seq<AppRequest>)
    requires forall r :: f(r).retry == r.retry
    ensures Sum(Retries, Map(f, requests)) == Sum(Retries, requests)
  {
    if requests != [] {
      assert Map(f, requests)[1..] == Map(f, requests[1..]);
      MapKeepsRetries(f, requests[1..]);
    }
  }

  lemma ResponseKeepsCounts(b: Browser, i: nat, unauthorized: bool)
    requires CountInv(b)
    ensures CountInv(OnResponse(b, i, unauthorized))
  {
    if i < |b.requests| {
      assert RequestOk(b.requests[i]);
      SumUpdate(Retries, b.requests, i, OnResponse(b, i, unauthorized).requests[i]);
    }
  }

  lemma AnswerKeepsCounts(b: Browser, lost: bool)
    requires CountInv(b) && b.refreshing.Answered?
    ensures CountInv(OnRefreshAnswer(b, lost))
  {
    MapKeepsRetries(Resent, b.requests);
    forall i | 0 <= i < |b.requests|
      ensures RequestOk(Resent(b.requests[i]))
    {
      assert RequestOk(b.requests[i]);
    }
  }

  lemma StepKeepsCounts(s: System, r: nat, step: Step)
    requires CountInv(s.browser)
    ensures CountInv(Apply(s, r, step).browser)
  {
    var b := s.browser;
    match step {
      case Send => SumAppend(Retries, b.requests, AppRequest(InFlight, false, 1));
      case Response(i, unauthorized) => ResponseKeepsCounts(b, i, unauthorized);
      case AnswerArrives(lost) =>
        if b.refreshing.Answered? {
          AnswerKeepsCounts(b, lost);
        }
      case LogoutSettles => MapKeepsRetries(Rejected, b.requests);
      case Reload => MapKeepsRetries(Abandoned, b.requests);
      case _ =>
    }
  }

  lemma {:induction false} RunKeepsCounts(s: System, r: nat, steps: seq<Step>)
    requires CountInv(s.browser)
    ensures CountInv(Run(s, r, steps).browser)
    decreases steps
  {
    if steps != [] {
      StepKeepsCounts(s, r, steps[0]);
      RunKeepsCounts(Apply(s, r, steps[0]), r, steps[1..]);
    }
  }

  lemma {:induction false} CountBounds(requests: seq<AppRequest>)
    requires forall i :: 0 <= i < |requests| ==> RequestOk(requests[i])
    ensures Sum(Sends, requests) <= 2 * |requests| && Sum(Retries, requests) <= |requests|
  {
    if requests != [] {
      CountBounds(requests[1..]);
    }
  }

  /** n application requests cause at most 2n sends and at most n refreshes started by the interceptor. */
  lemma SendsAndRefreshesBounded(s: System, r: nat, steps: seq<Step>)
    requires LoggedIn(s, r)
    ensures var b := Run(s, r, steps).browser;
            Sum(Sends, b.requests) <= 2 * |b.requests| && b.asks <= |b.requests|
  {
    RunKeepsCounts(s, r, steps);
    CountBounds(Run(s, r, steps).browser.requests);
  }

  /** Every request settles once the network calls do */

  // Some network call of the page is outstanding.
  predicate NetworkPending(b: Browser) {
    !b.refreshing.Idle? || exists i :: 0 <= i < |b.requests| && b.requests[i].phase.InFlight?
  }

  // The step is the end of an outstanding network call.
  predicate Settling(s: System, step: Step) {
    var b := s.browser;
    match step
    case Response(i, _) => i < |b.requests| && b.requests[i].phase.InFlight?
    case ServerAnswers(_, now, _) => b.refreshing.Asking? && now >= s.clock
    case QuestionLost => b.refreshing.Asking?
    case AnswerArrives(_) => b.refreshing.Answered?
    case LogoutSettles => b.refreshing.LoggingOut?
    case _ => false
  }

  function Weight(r: AppRequest): int {
    match r.phase
    case InFlight => if r.retry then 1 else 6
    case Waiting => 2
    case Settled => 0
  }

  // How much network traffic is still to come, at most.
  function Outstanding(b: Browser): int {
    Sum(Weight, b.requests) +
    match b.refreshing
    case Idle => 0
    case Asking(_, _) => 3
    case Answered(_, _, _) => 2
    case LoggingOut => 1
  }

  lemma {:induction false} ReleaseLightens(f: AppRequest -> AppRequest, requests: seq<AppRequest>)
    requires forall i :: 0 <= i < |requests| ==> Weight(f(requests[i])) <= Weight(requests[i])
    ensures Sum(Weight, Map(f, requests)) <= Sum(Weight, requests)
  {
    if requests != [] {
      assert Map(f, requests)[1..] == Map(f, requests[1..]);
      ReleaseLightens(f, requests[1..]);
    }
  }

  lemma SettlingLightens(s: System, r: nat, step: Step)
    requires CountInv(s.browser) && Settling(s, step)
    ensures Outstanding(Apply(s, r, step).browser) < Outstanding(s.browser)
  {
    var b, n := s.browser, Apply(s, r, step).browser;
    match step {
      case Response(i, unauthorized) => SumUpdate(Weight, b.requests, i, n.requests[i]);
      case AnswerArrives(lost) => ReleaseLightens(Resent, b.requests);
      case LogoutSettles => ReleaseLightens(Rejected, b.requests);
      case _ =>
    }
  }

  // Each step of the run ends a network call that is outstanding at that moment.
  ghost predicate OnlySettling(s: System, r: nat, steps: seq<Step>)
    decreases steps
  {
    steps != [] ==> Settling(s, steps[0]) && OnlySettling(Apply(s, r, steps[0]), r, steps[1..])
  }

  lemma {:induction false} SettlingEnds(s: System, r: nat, steps: seq<Step>)
    requires CountInv(s.browser) && OnlySettling(s, r, steps)
    ensures CountInv(Run(s, r, steps).browser)
    ensures |steps| + Outstanding(Run(s, r, steps).browser) <= Outstanding(s.browser)
    decreases steps
  {
    if steps != [] {
      StepKeepsCounts(s, r, steps[0]);
      SettlingLightens(s, r, steps[0]);
      SettlingEnds(Apply(s, r, steps[0]), r, steps[1..]);
    }
  }

  /**
   Every request settles if every network call does: from any reachable state only boundedly many
   network calls can end, and when none is outstanding no request waits, since nothing that a refresh
   waits for waits for a refresh.
   */
  lemma EveryRequestSettles(s: System, r: nat, before: seq<Step>, rest: seq<Step>)
    requires LoggedIn(s, r) && OnlySettling(Run(s, r, before), r, rest)
    ensures var now, end := Run(s, r, before).browser, Run(Run(s, r, before), r, rest).browser;
            && |rest| <= 6 * |now.requests| + 3
            && |end.requests| == |now.requests|
            && (!NetworkPending(end) ==> forall i :: 0 <= i < |end.requests| ==> end.requests[i].phase.Settled?)
  {
    RunKeepsCounts(s, r, before);
    var now := Run(s, r, before);
    SettlingEnds(now, r, rest);
    SettlingKeepsRequests(now, r, rest);
    OutstandingBounds(Run(now, r, rest).browser);
    OutstandingBounds(now.browser);
  }

  lemma OutstandingBounds(b: Browser)
    ensures 0 <= Outstanding(b) <= 6 * |b.requests| + 3
  {
    SumNonNegative(Weight, b.requests);
    WeightBound(b.requests);
  }

  lemma {:induction false} WeightBound(requests: seq<AppRequest>)
    ensures Sum(Weight, requests) <= 6 * |requests|
  {
    if requests != [] {
      WeightBound(requests[1..]);
    }
  }

  lemma {:induction false} SettlingKeepsRequests(s: System, r: nat, steps: seq<Step>)
    requires OnlySettling(s, r, steps)
    ensures |Run(s, r, steps).browser.requests| == |s.browser.requests|
    decreases steps
  {
    if steps != [] {
      SettlingKeepsRequests(Apply(s, r, steps[0]), r, steps[1..]);
    }
  }
}
