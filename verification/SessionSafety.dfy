/**
 What every reachable session table keeps, and what that means for refresh tokens: each works at
 most once, replaying one kills its whole family for good, and a password reset ends them all.
 */
module SessionSafety {
  import opened Wrappers
  import opened Sessions

  /** The invariant */

  // Parents come first, sit on the same device and are revoked.
  ghost predicate SessionOk(t: Tables, i: nat)
    requires i < |t.sessions|
  {
    var s := t.sessions[i];
    && s.deviceId < |t.devices|
    && (s.parent.Some? ==>
          s.parent.value < i && t.sessions[s.parent.value].revoked && t.sessions[s.parent.value].deviceId == s.deviceId)
  }

  // Tokens are distinct, a session has at most one child, a device at most one live session.
  predicate Apart(a: Session, b: Session) {
    && a.token != b.token
    && (a.parent.Some? ==> a.parent != b.parent)
    && (a.deviceId == b.deviceId ==> a.revoked || b.revoked)
  }

  ghost predicate Valid(t: Tables) {
    && (forall d, e :: 0 <= d < e < |t.devices| ==> t.devices[d].thumbprint != t.devices[e].thumbprint)
    && (forall i :: 0 <= i < |t.sessions| ==> SessionOk(t, i))
    && (forall i, j :: 0 <= i < j < |t.sessions| ==> Apart(t.sessions[i], t.sessions[j]))
  }

  // Sessions stay as they are, except that some may have been revoked.
  ghost predicate OnlyRevoked(a: seq<Session>, b: seq<Session>) {
    |a| == |b| && forall i :: 0 <= i < |a| ==> b[i] == a[i] || b[i] == Revoked(a[i])
  }

  // What every request does to the stored tables: old sessions may be revoked, new rows appended.
  ghost predicate Grows(a: Tables, b: Tables) {
    |a.sessions| <= |b.sessions| && OnlyRevoked(a.sessions, b.sessions[..|a.sessions|]) && a.devices <= b.devices
  }

  lemma RevokingKeepsValid(t: Tables, n: Tables)
    requires Valid(t) && OnlyRevoked(t.sessions, n.sessions) && t.devices == n.devices
    ensures Valid(n) && Grows(t, n)
  {
    assert n.sessions[..|t.sessions|] == n.sessions;
    forall i | 0 <= i < |n.sessions|
      ensures SessionOk(n, i)
    {
      assert SessionOk(t, i);
    }
    forall i, j | 0 <= i < j < |n.sessions|
      ensures Apart(n.sessions[i], n.sessions[j])
    {
      assert Apart(t.sessions[i], t.sessions[j]);
    }
  }

  lemma IssuingKeepsValid(t: Tables, d: nat, parent: Option<nat>, token: nat, now: int)
    requires Valid(t) && d < |t.devices|
    requires forall i :: 0 <= i < |t.sessions| && t.sessions[i].deviceId == d ==> t.sessions[i].revoked
    requires parent.Some? ==> parent.value < |t.sessions| && t.sessions[parent.value].deviceId == d &&
                              forall i :: 0 <= i < |t.sessions| ==> t.sessions[i].parent != parent
    ensures var n := GenerateTokens(t, d, parent, token, now).0; Valid(n) && Grows(t, n)
  {
    var n := GenerateTokens(t, d, parent, token, now).0;
    assert n.sessions[..|t.sessions|] == t.sessions;
    forall i | 0 <= i < |n.sessions|
      ensures SessionOk(n, i)
    {
      if i < |t.sessions| {
        assert SessionOk(t, i);
      }
    }
    forall i, j | 0 <= i < j < |n.sessions|
      ensures Apart(n.sessions[i], n.sessions[j])
    {
      if j < |t.sessions| {
        assert Apart(t.sessions[i], t.sessions[j]);
      }
    }
  }

  lemma GrowsTransitive(a: Tables, b: Tables, c: Tables)
    requires Grows(a, b) && Grows(b, c)
    ensures Grows(a, c)
  {
    forall i | 0 <= i < |a.sessions|
      ensures c.sessions[i] == a.sessions[i] || c.sessions[i] == Revoked(a.sessions[i])
    {
      assert b.sessions[..|a.sessions|][i] == b.sessions[i] && c.sessions[..|b.sessions|][i] == c.sessions[i];
    }
  }

  lemma LoginKeepsValid(t: Tables, q: Request)
    requires Valid(t) && q.Login?
    ensures Valid(After(t, q)) && Grows(t, After(t, q))
  {
    var u := UserByEmail(t.users, q.email);
    if u.Some? && !t.users[u.value].locked && t.users[u.value].password == q.password {
      var (withDevice, d) := LoginDevice(t, u.value, q.thumbprint);
      assert Valid(withDevice) && Grows(t, withDevice) by {
        assert withDevice.sessions[..|t.sessions|] == t.sessions;
        forall i | 0 <= i < |t.sessions|
          ensures SessionOk(withDevice, i)
        {
          assert SessionOk(t, i);
        }
      }
      var cleared := withDevice.(sessions := RevokeDevice(withDevice.sessions, d));
      RevokingKeepsValid(withDevice, cleared);
      IssuingKeepsValid(cleared, d, None, q.token, q.now);
      GrowsTransitive(t, withDevice, cleared);
      GrowsTransitive(t, cleared, After(t, q));
    } else {
      RevokingKeepsValid(t, t);
    }
  }

  lemma ApartFromOthers(t: Tables, i: nat)
    requires Valid(t) && i < |t.sessions|
    ensures forall j :: 0 <= j < |t.sessions| && j != i ==> Apart(t.sessions[i], t.sessions[j])
  {
    forall j | 0 <= j < |t.sessions| && j != i
      ensures Apart(t.sessions[i], t.sessions[j])
    {
      assert if i < j then Apart(t.sessions[i], t.sessions[j]) else Apart(t.sessions[j], t.sessions[i]);
    }
  }

  // In a valid table a live session has no child and is the only live one of its device.
  lemma LiveIsTip(t: Tables, i: nat)
    requires Valid(t) && i < |t.sessions| && !t.sessions[i].revoked
    ensures forall j :: 0 <= j < |t.sessions| ==> t.sessions[j].parent != Some(i)
    ensures forall j :: 0 <= j < |t.sessions| && j != i && t.sessions[j].deviceId == t.sessions[i].deviceId ==>
              t.sessions[j].revoked
  {
    ApartFromOthers(t, i);
    forall j | 0 <= j < |t.sessions|
      ensures t.sessions[j].parent != Some(i)
    {
      assert SessionOk(t, j);
    }
  }

  lemma RefreshKeepsValid(t: Tables, q: Request)
    requires Valid(t) && q.Refresh?
    ensures Valid(After(t, q)) && Grows(t, After(t, q))
  {
    var n, reply := After(t, q), Serve(t, q).1;
    var found := SessionByToken(t.sessions, q.presented);
    if reply == ReuseDetected {
      RevokingKeepsValid(t, n);
    } else if n != t {
      var i := found.value;
      var d := t.sessions[i].deviceId;
      LiveIsTip(t, i);
      var rotated := t.(sessions := t.sessions[i := Revoked(t.sessions[i])]);
      RevokingKeepsValid(t, rotated);
      IssuingKeepsValid(rotated, d, Some(i), q.token, q.now);
      GrowsTransitive(t, rotated, n);
    } else {
      RevokingKeepsValid(t, t);
    }
  }

  /** Every request keeps the invariant, un-revokes nothing and forgets nothing. */
  lemma ServeKeepsValid(t: Tables, q: Request)
    requires Valid(t)
    ensures Valid(After(t, q)) && Grows(t, After(t, q))
  {
    match q {
      case Login(_, _, _, _, _) => LoginKeepsValid(t, q);
      case Refresh(_, _, _, _) => RefreshKeepsValid(t, q);
      case _ => RevokingKeepsValid(t, After(t, q));
    }
  }

  lemma {:induction false} RunKeepsValid(t: Tables, qs: seq<Request>)
    requires Valid(t)
    ensures Valid(ServeAll(t, qs)) && Grows(t, ServeAll(t, qs))
    decreases qs
  {
    if qs == [] {
      RevokingKeepsValid(t, t);
    } else {
      var n := After(t, qs[0]);
      ServeKeepsValid(t, qs[0]);
      RunKeepsValid(n, qs[1..]);
      GrowsTransitive(t, n, ServeAll(n, qs[1..]));
    }
  }

  const EMPTY := Tables([], [], [])

  /**
   In every reachable table: parents are older than their children, so links are acyclic; a session
   has at most one child; a session with a child is revoked; a device has at most one live session.
   */
  lemma ReachableForest(qs: seq<Request>)
    ensures var s := ServeAll(EMPTY, qs).sessions;
            && (forall i :: 0 <= i < |s| && s[i].parent.Some? ==> s[i].parent.value < i && s[s[i].parent.value].revoked)
            && (forall i, j :: 0 <= i < j < |s| && s[i].parent.Some? ==> s[i].parent != s[j].parent)
            && (forall i, j :: 0 <= i < j < |s| && !s[i].revoked && !s[j].revoked ==> s[i].deviceId != s[j].deviceId)
            && (forall i, j :: 0 <= i < j < |s| ==> s[i].token != s[j].token)
  {
    RunKeepsValid(EMPTY, qs);
    var t := ServeAll(EMPTY, qs);
    forall i | 0 <= i < |t.sessions|
      ensures t.sessions[i].parent.Some? ==>
                t.sessions[i].parent.value < i && t.sessions[t.sessions[i].parent.value].revoked
    {
      assert SessionOk(t, i);
    }
    forall i, j | 0 <= i < j < |t.sessions|
      ensures Apart(t.sessions[i], t.sessions[j])
    {}
  }

  /** A token works at most once */

  lemma TokenFinds(t: Tables, i: nat)
    requires Valid(t) && i < |t.sessions|
    ensures SessionByToken(t.sessions, t.sessions[i].token) == Some(i)
  {
    ApartFromOthers(t, i);
  }

  // The token of a session revoked by now is refused in any continuation.
  lemma RevokedTokenRefused(t: Tables, i: nat, qs: seq<Request>, q: Request)
    requires Valid(t) && i < |t.sessions| && t.sessions[i].revoked
    requires q.Refresh? && q.presented == t.sessions[i].token
    ensures !Serve(ServeAll(t, qs), q).1.Tokens?
  {
    RunKeepsValid(t, qs);
    var n := ServeAll(t, qs);
    assert n.sessions[..|t.sessions|][i] == n.sessions[i];
    TokenFinds(n, i);
  }

  /** Each refresh token succeeds at most once in a run: after one success every later use is refused. */
  lemma {:induction false} TokenWorksOnce(t: Tables, first: Request, qs: seq<Request>, again: Request)
    requires Valid(t) && first.Refresh? && again.Refresh? && again.presented == first.presented
    requires Serve(t, first).1.Tokens?
    ensures !Serve(ServeAll(After(t, first), qs), again).1.Tokens?
  {
    var i := SessionByToken(t.sessions, first.presented).value;
    ServeKeepsValid(t, first);
    RevokedTokenRefused(After(t, first), i, qs, again);
  }

  /** Families */

  function Root(sessions: seq<Session>, i: nat): nat
    requires i < |sessions|
  {
    var parent := sessions[i].parent;
    if parent.Some? && parent.value < i then Root(sessions, parent.value) else i
  }

  lemma {:induction false} RootIsOldest(sessions: seq<Session>, i: nat)
    requires i < |sessions|
    ensures Root(sessions, i) <= i
  {
    var parent := sessions[i].parent;
    if parent.Some? && parent.value < i {
      RootIsOldest(sessions, parent.value);
    }
  }

  // Of two sessions of one family the older reaches the newer: a family is a single chain.
  lemma {:induction false} FamilyIsChain(t: Tables, x: nat, y: nat)
    requires Valid(t) && x < y < |t.sessions| && Root(t.sessions, x) == Root(t.sessions, y)
    ensures Reaches(t.sessions, x, y)
    decreases y, x
  {
    RootIsOldest(t.sessions, x);
    assert SessionOk(t, y);
    var p := t.sessions[y].parent.value;
    if p == x {
      ReachesSelf(t.sessions, x);
      ReachesChild(t.sessions, x, p, y);
    } else if x < p {
      FamilyIsChain(t, x, p);
      ReachesChild(t.sessions, x, p, y);
    } else {
      FamilyIsChain(t, p, x);
      OnlyChildOnPath(t, p, x, y);
      assert false;
    }
  }

  // Every way down from the parent of `y` goes through `y`.
  lemma OnlyChildOnPath(t: Tables, p: nat, x: nat, y: nat)
    requires Valid(t) && Reaches(t.sessions, p, x) && p != x && y < |t.sessions| && t.sessions[y].parent == Some(p)
    ensures y <= x
  {
    var path :| IsDownPath(t.sessions, path) && path[0] == p && path[|path| - 1] == x;
    assert t.sessions[path[1]].parent == Some(p);
    ApartFromOthers(t, y);
    PathAscends(t, path[1..]);
  }

  lemma {:induction false} PathAscends(t: Tables, path: seq<nat>)
    requires Valid(t) && IsDownPath(t.sessions, path)
    ensures path[0] <= path[|path| - 1] && Root(t.sessions, path[0]) == Root(t.sessions, path[|path| - 1])
  {
    if |path| > 1 {
      var c := path[1];
      assert t.sessions[c].parent == Some(path[0]) && SessionOk(t, c);
      PathAscends(t, path[1..]);
    }
  }

  // No session of the family with this root is live.
  ghost predicate FamilyDead(t: Tables, root: nat) {
    forall i :: 0 <= i < |t.sessions| && Root(t.sessions, i) == root ==> t.sessions[i].revoked
  }

  // An older session of a family has a child, so it is revoked.
  lemma OlderIsRevoked(t: Tables, x: nat, y: nat)
    requires Valid(t) && x < y < |t.sessions| && Root(t.sessions, x) == Root(t.sessions, y)
    ensures t.sessions[x].revoked
  {
    FamilyIsChain(t, x, y);
    var path :| IsDownPath(t.sessions, path) && path[0] == x && path[|path| - 1] == y;
    assert t.sessions[path[1]].parent == Some(x) && SessionOk(t, path[1]);
  }

  lemma {:induction false} RootUnchanged(a: seq<Session>, b: seq<Session>, i: nat)
    requires i < |a| <= |b| && OnlyRevoked(a, b[..|a|])
    ensures Root(b, i) == Root(a, i)
  {
    assert b[..|a|][i] == b[i];
    var parent := a[i].parent;
    if parent.Some? && parent.value < i {
      RootUnchanged(a, b, parent.value);
    }
  }

  // Every relative of a replayed session is revoked already or reached by the query.
  lemma RelativeIsRevoked(t: Tables, i: nat, x: nat)
    requires Valid(t) && i < |t.sessions| && t.sessions[i].revoked
    requires x < |t.sessions| && Root(t.sessions, x) == Root(t.sessions, i)
    ensures t.sessions[x].revoked || x in Family(t.sessions, i)
  {
    if x < i {
      OlderIsRevoked(t, x, i);
    } else if i < x {
      FamilyIsChain(t, i, x);
    }
  }

  /**
   Replaying a revoked refresh token is detected and leaves its whole family revoked: descendants by
   the query, ancestors because they already were.
   */
  lemma {:induction false} ReplayKillsFamily(t: Tables, i: nat, q: Request)
    requires Valid(t) && i < |t.sessions| && t.sessions[i].revoked
    requires q.Refresh? && q.presented == t.sessions[i].token && !q.proof.NoHeader?
    ensures Serve(t, q).1 == ReuseDetected
    ensures FamilyDead(After(t, q), Root(t.sessions, i))
  {
    TokenFinds(t, i);
    assert SessionOk(t, i);
    ServeKeepsValid(t, q);
    var n := After(t, q);
    forall x | 0 <= x < |n.sessions| && Root(n.sessions, x) == Root(t.sessions, i)
      ensures n.sessions[x].revoked
    {
      RootUnchanged(t.sessions, n.sessions, x);
      RelativeIsRevoked(t, i, x);
    }
  }

  lemma DownKeepsRoot(t: Tables, i: nat, x: nat)
    requires Valid(t) && i < |t.sessions| && x < |t.sessions| && Reaches(t.sessions, i, x)
    ensures Root(t.sessions, i) == Root(t.sessions, x)
  {
    var path :| IsDownPath(t.sessions, path) && path[0] == i && path[|path| - 1] == x;
    PathAscends(t, path);
  }

  /** A replay revokes that family and nothing else. */
  lemma {:induction false} ReplaySparesOthers(t: Tables, i: nat, q: Request, x: nat)
    requires Valid(t) && i < |t.sessions| && t.sessions[i].revoked
    requires q.Refresh? && q.presented == t.sessions[i].token
    requires x < |t.sessions| && Root(t.sessions, x) != Root(t.sessions, i)
    ensures After(t, q).sessions[x] == t.sessions[x]
  {
    TokenFinds(t, i);
    if Reaches(t.sessions, i, x) {
      DownKeepsRoot(t, i, x);
      assert false;
    }
  }

  /** What a replay means for the user whose device it is */

  predicate OwnedBy(t: Tables, u: nat, x: nat)
    requires x < |t.sessions|
  {
    t.sessions[x].deviceId < |t.devices| && t.devices[t.sessions[x].deviceId].userId == u
  }

  // No session on a device of user `u` is live.
  ghost predicate AllLocked(t: Tables, u: nat) {
    forall x :: 0 <= x < |t.sessions| && OwnedBy(t, u, x) ==> t.sessions[x].revoked
  }

  // Every live session on a device of user `u` belongs to the family with this root.
  ghost predicate OneFamilyLive(t: Tables, u: nat, root: nat) {
    forall x :: 0 <= x < |t.sessions| && OwnedBy(t, u, x) && !t.sessions[x].revoked ==> Root(t.sessions, x) == root
  }

  /** A replay locks all sessions of a user if and only if all that were live belong to the replayed family. */
  lemma {:induction false} ReplayLocksUserIff(t: Tables, i: nat, q: Request, u: nat)
    requires Valid(t) && i < |t.sessions| && t.sessions[i].revoked && OwnedBy(t, u, i)
    requires q.Refresh? && q.presented == t.sessions[i].token && !q.proof.NoHeader?
    ensures AllLocked(After(t, q), u) <==> OneFamilyLive(t, u, Root(t.sessions, i))
  {
    TokenFinds(t, i);
    ServeKeepsValid(t, q);
    ReplayKillsFamily(t, i, q);
    var n, root := After(t, q), Root(t.sessions, i);
    forall x | 0 <= x < |t.sessions| && OwnedBy(t, u, x)
      ensures OwnedBy(n, u, x)
      ensures n.sessions[x].revoked <==> t.sessions[x].revoked || Root(t.sessions, x) == root
    {
      if Root(t.sessions, x) == root {
        RootUnchanged(t.sessions, n.sessions, x);
      } else {
        ReplaySparesOthers(t, i, q, x);
      }
    }
  }

  const FIRST_LOGIN := Login("a", 0, 10, 0, 1)
  const SECOND_LOGIN := Login("a", 0, 20, 0, 2)
  const FIRST_REFRESH := Refresh(1, Key(10, true), 0, 3)

  const ONE_DEVICE := Tables([User("a", 0, false)], [Device(0, 10)], [Session(0, 1, None, false, TOKEN_LIFETIME)])

  // A user with two devices: registered, logged in on both, refreshed on the first.
  const TWO_DEVICES :=
    Tables([User("a", 0, false)], [Device(0, 10), Device(0, 20)],
           [Session(0, 1, None, true, TOKEN_LIFETIME), Session(1, 2, None, false, TOKEN_LIFETIME),
            Session(0, 3, Some(0), false, TOKEN_LIFETIME)])

  lemma OneDeviceReached()
    ensures After(After(EMPTY, Register("a", 0)), FIRST_LOGIN) == ONE_DEVICE
  {
    assert After(EMPTY, Register("a", 0)) == Tables([User("a", 0, false)], [], []);
  }

  lemma TwoDevicesReached()
    ensures After(After(ONE_DEVICE, SECOND_LOGIN), FIRST_REFRESH) == TWO_DEVICES
  {
    var t := After(ONE_DEVICE, SECOND_LOGIN);
    assert t == Tables(ONE_DEVICE.users, [Device(0, 10), Device(0, 20)],
                       ONE_DEVICE.sessions + [Session(1, 2, None, false, TOKEN_LIFETIME)]);
  }

  lemma ServeTwo(t: Tables, first: Request, second: Request, rest: seq<Request>)
    ensures ServeAll(t, [first, second] + rest) == ServeAll(After(After(t, first), second), rest)
  {
    var all := [first, second] + rest;
    assert all[1..] == [second] + rest && all[1..][1..] == rest;
  }

  lemma TwoDevicesHold()
    ensures ServeAll(EMPTY, [Register("a", 0), FIRST_LOGIN] + [SECOND_LOGIN, FIRST_REFRESH]) == TWO_DEVICES
    ensures Valid(TWO_DEVICES)
  {
    OneDeviceReached();
    TwoDevicesReached();
    ServeTwo(EMPTY, Register("a", 0), FIRST_LOGIN, [SECOND_LOGIN, FIRST_REFRESH]);
    ServeTwo(ONE_DEVICE, SECOND_LOGIN, FIRST_REFRESH, []);
    assert [SECOND_LOGIN, FIRST_REFRESH] + [] == [SECOND_LOGIN, FIRST_REFRESH];
    RunKeepsValid(EMPTY, [Register("a", 0), FIRST_LOGIN] + [SECOND_LOGIN, FIRST_REFRESH]);
  }

  /**
   Reuse of a token does not lock every session of its user: here the first device's spent token is replayed,
   which is detected, and the same user's session on the second device stays live.
   */
  lemma ReplaySparesSecondDevice(proof: Proof, now: int, token: nat)
    requires !proof.NoHeader?
    ensures ServeAll(EMPTY, [Register("a", 0), FIRST_LOGIN] + [SECOND_LOGIN, FIRST_REFRESH]) == TWO_DEVICES
    ensures var t, q := TWO_DEVICES, Refresh(1, proof, now, token);
            && Serve(t, q).1 == ReuseDetected
            && |After(t, q).sessions| == 3 && OwnedBy(After(t, q), 0, 1) && !After(t, q).sessions[1].revoked
            && !AllLocked(After(t, q), 0)
  {
    TwoDevicesHold();
    var t, q := TWO_DEVICES, Refresh(1, proof, now, token);
    ReplayKillsFamily(t, 0, q);
    ReplaySparesOthers(t, 0, q, 1);
  }

  lemma ServeKeepsDead(t: Tables, q: Request, root: nat)
    requires Valid(t) && FamilyDead(t, root) && root < |t.sessions|
    ensures FamilyDead(After(t, q), root)
  {
    ServeKeepsValid(t, q);
    var n := After(t, q);
    forall x | 0 <= x < |n.sessions| && Root(n.sessions, x) == root
      ensures n.sessions[x].revoked
    {
      if x < |t.sessions| {
        RootUnchanged(t.sessions, n.sessions, x);
        assert n.sessions[..|t.sessions|][x] == n.sessions[x];
      } else {
        NewRoot(t, q, x);
      }
    }
  }

  // A new session starts a family or joins that of a session that was live.
  lemma NewRoot(t: Tables, q: Request, x: nat)
    requires Valid(t) && |t.sessions| <= x < |After(t, q).sessions|
    ensures var n := After(t, q);
            Root(n.sessions, x) == x ||
            exists p :: 0 <= p < |t.sessions| && !t.sessions[p].revoked && Root(n.sessions, x) == Root(t.sessions, p)
  {
    var n := After(t, q);
    ServeKeepsValid(t, q);
    if q.Refresh? {
      var p := SessionByToken(t.sessions, q.presented).value;
      assert n.sessions[x].parent == Some(p);
      RootUnchanged(t.sessions, n.sessions, p);
    }
  }

  /** From then on no run contains a live session of that family. */
  lemma {:induction false} DeadFamilyStaysDead(t: Tables, qs: seq<Request>, root: nat)
    requires Valid(t) && FamilyDead(t, root) && root < |t.sessions|
    ensures FamilyDead(ServeAll(t, qs), root)
    decreases qs
  {
    if qs != [] {
      ServeKeepsValid(t, qs[0]);
      ServeKeepsDead(t, qs[0], root);
      DeadFamilyStaysDead(After(t, qs[0]), qs[1..], root);
    }
  }

  /** Password reset */

  /**
   After a password reset completes for a user, no refresh token issued earlier on any device that
   user owns succeeds in any continuation.
   */
  lemma {:induction false} ResetEndsSessions(t: Tables, reset: Request, i: nat, qs: seq<Request>, q: Request)
    requires Valid(t) && reset.ResetVerify? && Serve(t, reset).1 == Done
    requires i < |t.sessions| && t.sessions[i].deviceId < |t.devices|
    requires UserByEmail(t.users, reset.email) == Some(t.devices[t.sessions[i].deviceId].userId)
    requires q.Refresh? && q.presented == t.sessions[i].token
    ensures !Serve(ServeAll(After(t, reset), qs), q).1.Tokens?
  {
    ServeKeepsValid(t, reset);
    RevokedTokenRefused(After(t, reset), i, qs, q);
  }
}
