/**
 What a caller of the session requests can count on: who may log in, how long a token lives, what a logout,
 a registration and a password reset change, and what they leave alone.
 */
module SessionOutcomes {
  import opened Wrappers
  import opened Sessions
  import opened SessionSafety

  /** Logging in */

  // User `u` is the first with this email.
  predicate IsUser(t: Tables, email: string, u: nat) {
    u < |t.users| && t.users[u].email == email && forall v :: 0 <= v < u ==> t.users[v].email != email
  }

  // These are the credentials of a user who is not locked.
  ghost predicate GoodCredentials(t: Tables, email: string, password: nat) {
    exists u: nat :: IsUser(t, email, u) && !t.users[u].locked && t.users[u].password == password
  }

  predicate UnusedToken(t: Tables, token: nat) {
    forall i :: 0 <= i < |t.sessions| ==> t.sessions[i].token != token
  }

  lemma UserFound(t: Tables, email: string)
    ensures var found := UserByEmail(t.users, email);
            if found.Some?
            then IsUser(t, email, found.value) && forall u: nat :: IsUser(t, email, u) ==> u == found.value
            else forall u: nat :: !IsUser(t, email, u)
  {
    FirstIndex(t.users, (u: User) => u.email == email);
  }

  /**
   A login is answered with tokens exactly if the credentials are those of a user who is not locked and the
   fresh token is in no session. With other credentials the answer is Unauthorized and nothing changes.
   */
  lemma LoginIff(t: Tables, q: Request)
    requires q.Login?
    ensures Serve(t, q).1.Tokens? <==> GoodCredentials(t, q.email, q.password) && UnusedToken(t, q.token)
    ensures Serve(t, q).1 == Unauthorized <==> !GoodCredentials(t, q.email, q.password)
    ensures Serve(t, q).1 == Unauthorized ==> After(t, q) == t
  {
    UserFound(t, q.email);
    if GoodCredentials(t, q.email, q.password) {
      var u: nat :| IsUser(t, q.email, u) && !t.users[u].locked && t.users[u].password == q.password;
      var (withDevice, d) := LoginDevice(t, u, q.thumbprint);
      SameTokens(t, withDevice.(sessions := RevokeDevice(withDevice.sessions, d)), q.token);
    }
  }

  lemma SameTokens(t: Tables, n: Tables, token: nat)
    requires |n.sessions| == |t.sessions|
    requires forall i :: 0 <= i < |t.sessions| ==> n.sessions[i].token == t.sessions[i].token
    ensures SessionByToken(n.sessions, token).None? <==> UnusedToken(t, token)
  {
    if UnusedToken(t, token) {
      assert forall i :: 0 <= i < |n.sessions| ==> n.sessions[i].token != token;
    } else {
      var i :| 0 <= i < |t.sessions| && t.sessions[i].token == token;
      assert n.sessions[i].token == token;
    }
  }

  /**
   A login that is answered with tokens creates one live session of no family on the device with the key
   presented, which is the user's if it is new; all other sessions of that device are revoked, and nothing else
   changes. The answer names that session and carries the fresh token.
   */
  lemma LoginEffect(t: Tables, q: Request) returns (u: nat)
    requires Valid(t) && q.Login? && Serve(t, q).1.Tokens?
    ensures IsUser(t, q.email, u)
    ensures var n, id := After(t, q), |t.sessions|;
            && Serve(t, q).1 == Tokens(id, q.token)
            && n.users == t.users && t.devices <= n.devices && |n.sessions| == id + 1
            && n.sessions[id].deviceId < |n.devices|
            && n.sessions[id] == Session(n.sessions[id].deviceId, q.token, None, false, q.now + 2_592_000)
            && n.devices[n.sessions[id].deviceId].thumbprint == q.thumbprint
            && (n.devices == t.devices || n.devices == t.devices + [Device(u, q.thumbprint)])
            && forall i :: 0 <= i < id ==>
                 n.sessions[i] == if t.sessions[i].deviceId == n.sessions[id].deviceId
                                  then t.sessions[i].(revoked := true) else t.sessions[i]
  {
    UserFound(t, q.email);
    u := UserByEmail(t.users, q.email).value;
  }

  /** Refreshing */

  /**
   A refresh token lives for 30 days from its issue: presented with the verified key of its device, and with an
   unused fresh token, it is answered with tokens up to 2592000 seconds after its issue; later it is turned down
   and nothing changes.
   */
  lemma TokenLivesThirtyDays(t: Tables, first: Request, q: Request)
    requires Valid(t) && (first.Login? || first.Refresh?) && Serve(t, first).1.Tokens?
    requires var n, id := After(t, first), Serve(t, first).1.sessionId;
             && id < |n.sessions| && n.sessions[id].deviceId < |n.devices|
             && q.Refresh? && q.presented == Serve(t, first).1.token && UnusedToken(n, q.token)
             && q.proof == Key(n.devices[n.sessions[id].deviceId].thumbprint, true)
    ensures q.now <= first.now + 2_592_000 ==> Serve(After(t, first), q).1.Tokens?
    ensures q.now > first.now + 2_592_000 ==> Serve(After(t, first), q) == (After(t, first), Unauthorized)
  {
    ServeKeepsValid(t, first);
    var n, id := After(t, first), Serve(t, first).1.sessionId;
    IssuedLast(t, first);
    TokenFinds(n, id);
    SameTokens(n, n.(sessions := n.sessions[id := Revoked(n.sessions[id])]), q.token);
  }

  // The session that a login or refresh answers with is the last one, live, with the fresh token.
  lemma IssuedLast(t: Tables, q: Request)
    requires Valid(t) && (q.Login? || q.Refresh?) && Serve(t, q).1.Tokens?
    ensures var n, reply := After(t, q), Serve(t, q).1;
            && reply.token == q.token && reply.sessionId == |t.sessions| && |n.sessions| == |t.sessions| + 1
            && n.sessions[reply.sessionId].token == q.token && !n.sessions[reply.sessionId].revoked
            && n.sessions[reply.sessionId].expiresAt == q.now + 2_592_000
            && n.sessions[reply.sessionId].deviceId < |n.devices|
  {
    ServeKeepsValid(t, q);
    assert SessionOk(After(t, q), |t.sessions|);
  }

  // The session of the token presented.
  predicate Presents(t: Tables, q: Request, i: nat)
    requires q.Refresh?
  {
    i < |t.sessions| && t.sessions[i].token == q.presented
  }

  // The token of session i is presented in time and with some header.
  predicate InTimeWith(t: Tables, q: Request, i: nat)
    requires q.Refresh?
  {
    Presents(t, q, i) && !q.proof.NoHeader? && !t.sessions[i].revoked && q.now <= t.sessions[i].expiresAt
  }

  /**
   The answer to a refresh with a known token, whatever is presented: no header, a spent token, an expired one,
   no key, a wrong signature and another device's key are told apart in this order, and only a rotation or a
   replay changes anything.
   */
  lemma RefreshAnswers(t: Tables, q: Request, i: nat)
    requires Valid(t) && q.Refresh? && Presents(t, q, i) && t.sessions[i].deviceId < |t.devices|
    ensures var (n, reply) := Serve(t, q);
            var key := t.devices[t.sessions[i].deviceId].thumbprint;
            && (reply == ReuseDetected <==> !q.proof.NoHeader? && t.sessions[i].revoked)
            && (reply.Tokens? <==> InTimeWith(t, q, i) && q.proof == Key(key, true) && UnusedToken(t, q.token))
            && (reply == KeyMismatch <==>
                  InTimeWith(t, q, i) && q.proof.Key? && q.proof.verified && q.proof.thumbprint != key)
            && (reply == ServerError <==>
                  (InTimeWith(t, q, i) && q.proof.Key? && !q.proof.verified) ||
                  (InTimeWith(t, q, i) && q.proof == Key(key, true) && !UnusedToken(t, q.token)))
            && (reply == Unauthorized || reply == KeyMismatch ==> n == t)
            && (reply == Unauthorized || reply == ReuseDetected || reply.Tokens? || reply == KeyMismatch ||
                reply == ServerError)
  {
    TokenFinds(t, i);
    SameTokens(t, t.(sessions := t.sessions[i := Revoked(t.sessions[i])]), q.token);
  }

  /** A rotation revokes the session presented and appends its one child on the same device; nothing else changes. */
  lemma RotationEffect(t: Tables, q: Request, i: nat)
    requires Valid(t) && q.Refresh? && Presents(t, q, i) && Serve(t, q).1.Tokens?
    ensures After(t, q) ==
            t.(sessions := t.sessions[i := t.sessions[i].(revoked := true)]
                             + [Session(t.sessions[i].deviceId, q.token, Some(i), false, q.now + 2_592_000)])
    ensures Serve(t, q).1 == Tokens(|t.sessions|, q.token)
  {
    TokenFinds(t, i);
  }

  /** Logging out */

  /** A logout revokes the session it names, if there is one, and changes nothing else. */
  lemma LogoutEffect(t: Tables, id: nat)
    ensures var (n, reply) := Serve(t, Logout(id));
            if id < |t.sessions|
            then reply == Done && n == t.(sessions := t.sessions[id := t.sessions[id].(revoked := true)])
            else reply == NotFound && n == t
  {}

  /** After a logout answered Done the session's token is refused in every continuation. */
  lemma LogoutEndsSession(t: Tables, id: nat, qs: seq<Request>, q: Request)
    requires Valid(t) && Serve(t, Logout(id)).1 == Done
    requires id < |t.sessions| && q.Refresh? && q.presented == t.sessions[id].token
    ensures !Serve(ServeAll(After(t, Logout(id)), qs), q).1.Tokens?
  {
    ServeKeepsValid(t, Logout(id));
    RevokedTokenRefused(After(t, Logout(id)), id, qs, q);
  }

  /** Registering */

  /**
   A registration is refused exactly if the email is taken. Otherwise the user can log in at once with that
   password and with no other, and no other user's credentials change.
   */
  lemma RegisteredCanLogin(t: Tables, email: string, password: nat, other: string, given: nat)
    ensures var (n, reply) := Serve(t, Register(email, password));
            && (reply == Conflict <==> exists u :: 0 <= u < |t.users| && t.users[u].email == email)
            && (reply == Conflict || reply == Done)
            && (reply == Conflict ==> n == t)
            && n.devices == t.devices && n.sessions == t.sessions
            && (reply == Done ==> (GoodCredentials(n, email, given) <==> given == password))
            && (other != email ==> (GoodCredentials(n, other, given) <==> GoodCredentials(t, other, given)))
  {
    var n := After(t, Register(email, password));
    UserFound(t, email);
    if UserByEmail(t.users, email).None? {
      var user := User(email, password, false);
      forall u: nat
        ensures IsUser(n, email, u) <==> u == |t.users|
        ensures other != email ==> (IsUser(n, other, u) <==> IsUser(t, other, u))
      {
        NewUser(t, n, user, u);
        if other != email {
          OtherUser(t, n, user, other, u);
        }
      }
      assert IsUser(n, email, |t.users|);
      SameCredentials(t, n, other, given);
    }
  }

  lemma NewUser(t: Tables, n: Tables, user: User, u: nat)
    requires UserByEmail(t.users, user.email).None? && n.users == t.users + [user]
    ensures IsUser(n, user.email, u) <==> u == |t.users|
  {
    forall v | 0 <= v < |t.users|
      ensures n.users[v].email != user.email
    {}
  }

  lemma OtherUser(t: Tables, n: Tables, user: User, email: string, u: nat)
    requires n.users == t.users + [user] && email != user.email
    ensures IsUser(n, email, u) <==> IsUser(t, email, u)
  {
    assert forall v :: 0 <= v < |t.users| ==> n.users[v] == t.users[v];
    if u < |t.users| && IsUser(n, email, u) {
      forall v | 0 <= v < u
        ensures t.users[v].email != email
      {
        assert n.users[v].email != email;
      }
    }
  }

  // The user with an email keeps the credentials if the row stays.
  lemma SameCredentials(t: Tables, n: Tables, email: string, given: nat)
    ensures (forall u: nat :: IsUser(n, email, u) <==> IsUser(t, email, u)) &&
            (forall u: nat :: IsUser(t, email, u) && u < |n.users| ==> n.users[u] == t.users[u]) ==>
              (GoodCredentials(n, email, given) <==> GoodCredentials(t, email, given))
  {}

  /** Once a new email is registered, a login with it succeeds with the registered password and with no other. */
  lemma {:induction false} LoginAfterRegister(t: Tables, email: string, password: nat, q: Request)
    requires Serve(t, Register(email, password)).1 == Done && q.Login? && q.email == email
    ensures var n := After(t, Register(email, password));
            if q.password != password then Serve(n, q) == (n, Unauthorized)
            else Serve(n, q).1.Tokens? <==> UnusedToken(t, q.token)
  {
    RegisteredCanLogin(t, email, password, email, q.password);
    LoginIff(After(t, Register(email, password)), q);
  }

  /** Resetting a password */

  /**
   A password reset that is done gives the user the new password and no other, ends every session on the
   user's devices, and touches neither the sessions on other devices nor any other user.
   */
  lemma ResetEffect(t: Tables, q: Request, u: nat)
    requires q.ResetVerify? && q.codeAccepted && IsUser(t, q.email, u)
    ensures var (n, reply) := Serve(t, q);
            && reply == Done && n.devices == t.devices
            && n.users == t.users[u := t.users[u].(password := q.newPassword)]
            && |n.sessions| == |t.sessions|
            && forall i :: 0 <= i < |t.sessions| ==>
                 n.sessions[i] == if t.sessions[i].deviceId < |t.devices| &&
                                     t.devices[t.sessions[i].deviceId].userId == u
                                  then t.sessions[i].(revoked := true) else t.sessions[i]
  {
    UserFound(t, q.email);
  }

  /** After the reset exactly the new password logs in, unless the user is locked; other users log in as before. */
  lemma LoginAfterReset(t: Tables, q: Request, u: nat, other: string, given: nat)
    requires q.ResetVerify? && q.codeAccepted && IsUser(t, q.email, u)
    ensures var n := After(t, q);
            && (GoodCredentials(n, q.email, given) <==> !t.users[u].locked && given == q.newPassword)
            && (other != q.email ==> (GoodCredentials(n, other, given) <==> GoodCredentials(t, other, given)))
  {
    ResetEffect(t, q, u);
    var n := After(t, q);
    forall email: string, v: nat
      ensures IsUser(n, email, v) <==> IsUser(t, email, v)
    {
      SameEmails(t, n, email, v);
    }
    UserFound(t, q.email);
    assert IsUser(n, q.email, u);
    assert forall v: nat :: IsUser(n, q.email, v) ==> v == u;
    SameCredentials(t, n, other, given);
  }

  lemma SameEmails(t: Tables, n: Tables, email: string, u: nat)
    requires |n.users| == |t.users| && forall v :: 0 <= v < |t.users| ==> n.users[v].email == t.users[v].email
    ensures IsUser(n, email, u) <==> IsUser(t, email, u)
  {
    if IsUser(n, email, u) {
      forall v | 0 <= v < u
        ensures t.users[v].email != email
      {
        assert n.users[v].email != email;
      }
    }
  }

  /** A reset without an accepted code, or for an unknown email, changes nothing. */
  lemma ResetRefused(t: Tables, q: Request)
    requires q.ResetVerify?
    ensures Serve(t, q).1 == BadRequest <==> !q.codeAccepted
    ensures Serve(t, q).1 == NotFound <==> q.codeAccepted && forall u: nat :: !IsUser(t, q.email, u)
    ensures Serve(t, q).1 != Done ==> After(t, q) == t
  {
    UserFound(t, q.email);
  }
}
