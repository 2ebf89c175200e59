/**
 Refresh-token families: sessions linked to the session they were rotated from, reuse detection
 that revokes a family downward, and the requests that create and revoke sessions.

 Requests are atomic. Secrets are opaque: equal hashes mean equal secrets.
 */
module Sessions {
  import opened Wrappers

  datatype User = User(email: string, password: nat, locked: bool)

  datatype Device = Device(userId: nat, thumbprint: nat)

  datatype Session = Session(deviceId: nat, token: nat, parent: Option<nat>, revoked: bool, expiresAt: int)

  datatype Tables = Tables(users: seq<User>, devices: seq<Device>, sessions: seq<Session>)

  // What the DPoP header of a refresh shows.
  datatype Proof = NoHeader | NoKey | Key(thumbprint: nat, verified: bool)

  // `token` is the fresh random token of a request that may issue one.
  datatype Request =
    | Register(email: string, password: nat)
    | Login(email: string, password: nat, thumbprint: nat, now: int, token: nat)
    | Refresh(presented: nat, proof: Proof, now: int, token: nat)
    | Logout(sessionId: nat)
    | ResetVerify(email: string, codeAccepted: bool, newPassword: nat)

  datatype Reply =
    | Tokens(sessionId: nat, token: nat)
    | Done
    | Unauthorized
    | ReuseDetected
    | KeyMismatch
    | NotFound
    | Conflict
    | BadRequest
    | ServerError

  // A refresh token is valid for 30 days, in seconds.
  const TOKEN_LIFETIME := 2_592_000

  function UserByEmail(users: seq<User>, email: string): Option<nat> {
    FindIndex(users, (u: User) => u.email == email)
  }

  function DeviceByThumbprint(devices: seq<Device>, thumbprint: nat): Option<nat> {
    FindIndex(devices, (d: Device) => d.thumbprint == thumbprint)
  }

  function SessionByToken(sessions: seq<Session>, token: nat): Option<nat> {
    FindIndex(sessions, (s: Session) => s.token == token)
  }

  /** Revocation */

  function Revoked(s: Session): Session {
    s.(revoked := true)
  }

  // UPDATE sessions SET is_revoked = true WHERE device_id = d AND NOT is_revoked
  function RevokeDevice(sessions: seq<Session>, d: nat): (r: seq<Session>)
    ensures |r| == |sessions|
  {
    seq(|sessions|, i requires 0 <= i < |sessions| =>
      if sessions[i].deviceId == d && !sessions[i].revoked then Revoked(sessions[i]) else sessions[i])
  }

  // UPDATE sessions SET is_revoked = true WHERE id IN (ids)
  function RevokeAll(sessions: seq<Session>, ids: set<nat>): (r: seq<Session>)
    ensures |r| == |sessions|
  {
    seq(|sessions|, i requires 0 <= i < |sessions| => if i in ids then Revoked(sessions[i]) else sessions[i])
  }

  // A chain of child links from its first element to its last.
  predicate IsDownPath(sessions: seq<Session>, path: seq<nat>) {
    && |path| > 0
    && (forall k :: 0 <= k < |path| ==> path[k] < |sessions|)
    && (forall k :: 0 < k < |path| ==> sessions[path[k]].parent == Some(path[k - 1]))
  }

  ghost predicate Reaches(sessions: seq<Session>, start: nat, x: nat) {
    exists path :: IsDownPath(sessions, path) && path[0] == start && path[|path| - 1] == x
  }

  ghost function Family(sessions: seq<Session>, start: nat): set<nat> {
    set x: nat | x < |sessions| && Reaches(sessions, start, x)
  }

  function AllIds(n: nat): (s: set<nat>)
    ensures forall i: nat :: i in s <==> i < n
  {
    if n == 0 then {} else AllIds(n - 1) + {n - 1}
  }

  lemma ReachesChild(sessions: seq<Session>, start: nat, p: nat, x: nat)
    requires Reaches(sessions, start, p) && x < |sessions| && sessions[x].parent == Some(p)
    ensures Reaches(sessions, start, x)
  {
    var path :| IsDownPath(sessions, path) && path[0] == start && path[|path| - 1] == p;
    assert IsDownPath(sessions, path + [x]);
    assert (path + [x])[0] == start && (path + [x])[|path|] == x;
  }

  lemma ReachesSelf(sessions: seq<Session>, x: nat)
    requires x < |sessions|
    ensures Reaches(sessions, x, x)
  {
    assert IsDownPath(sessions, [x]);
  }

  // A set closed under child links contains every path that starts in it.
  lemma {:induction false} ClosedHoldsPaths(sessions: seq<Session>, ids: set<nat>, path: seq<nat>)
    requires IsDownPath(sessions, path) && path[0] in ids
    requires forall x: nat :: x < |sessions| && sessions[x].parent.Some? && sessions[x].parent.value in ids ==> x in ids
    ensures path[|path| - 1] in ids
  {
    if |path| > 1 {
      assert sessions[path[1]].parent == Some(path[0]);
      ClosedHoldsPaths(sessions, ids, path[1..]);
    }
  }

  // One round of the recursive term: the children of the working table that are not found yet.
  function NewChildren(sessions: seq<Session>, ids: set<nat>, working: set<nat>): (next: set<nat>)
    ensures next !! ids
  {
    set x: nat | x < |sessions| && sessions[x].parent.Some? && sessions[x].parent.value in working && x !in ids
  }

  // Everything found is reachable, and only children of the working table can be missing.
  ghost predicate Frontier(sessions: seq<Session>, start: nat, ids: set<nat>, working: set<nat>) {
    && working <= ids <= AllIds(|sessions|)
    && (start < |sessions| ==> start in ids)
    && (forall x: nat :: x in ids ==> Reaches(sessions, start, x))
    && (forall x: nat :: x < |sessions| && sessions[x].parent.Some? && sessions[x].parent.value in ids - working ==>
          x in ids)
  }

  lemma NextFrontier(sessions: seq<Session>, start: nat, ids: set<nat>, working: set<nat>)
    requires Frontier(sessions, start, ids, working)
    ensures var next := NewChildren(sessions, ids, working); Frontier(sessions, start, ids + next, next)
  {
    var next := NewChildren(sessions, ids, working);
    forall x: nat | x in next
      ensures Reaches(sessions, start, x)
    {
      ReachesChild(sessions, start, sessions[x].parent.value, x);
    }
  }

  lemma FoundAll(sessions: seq<Session>, start: nat, ids: set<nat>)
    requires Frontier(sessions, start, ids, {})
    ensures forall x: nat :: x in ids <==> Reaches(sessions, start, x)
  {
    forall x: nat | Reaches(sessions, start, x)
      ensures x in ids
    {
      var path :| IsDownPath(sessions, path) && path[0] == start && path[|path| - 1] == x;
      ClosedHoldsPaths(sessions, ids, path);
    }
  }

  /**
   Working-table evaluation of the recursive UNION query. On every table, cyclic ones included, it
   terminates and yields exactly the sessions reachable from the start by child links.
   */
  method FamilyIds(sessions: seq<Session>, start: nat) returns (ids: set<nat>)
    ensures forall x: nat :: x in ids <==> Reaches(sessions, start, x)
  {
    ids := if start < |sessions| then {start} else {};
    var working := ids;
    if start < |sessions| {
      ReachesSelf(sessions, start);
    }
    while working != {}
      invariant Frontier(sessions, start, ids, working)
      decreases AllIds(|sessions|) - ids, |working|
    {
      var next := NewChildren(sessions, ids, working);
      NextFrontier(sessions, start, ids, working);
      assert next != {} ==> exists x :: x in next && x in AllIds(|sessions|) - ids;
      ids := ids + next;
      working := next;
    }
    FoundAll(sessions, start, ids);
  }

  /** What one request does */

  // Creates a session and hands out its token; a token that is not unique is refused by the table.
  function GenerateTokens(t: Tables, d: nat, parent: Option<nat>, token: nat, now: int): (Tables, Reply) {
    if SessionByToken(t.sessions, token).Some? then (t, ServerError)
    else
      (t.(sessions := t.sessions + [Session(d, token, parent, false, now + TOKEN_LIFETIME)]),
       Tokens(|t.sessions|, token))
  }

  function LoginDevice(t: Tables, userId: nat, thumbprint: nat): (Tables, nat) {
    match DeviceByThumbprint(t.devices, thumbprint)
    case Some(d) => (t, d)
    case None => (t.(devices := t.devices + [Device(userId, thumbprint)]), |t.devices|)
  }

  function ServeLogin(t: Tables, q: Request): (Tables, Reply)
    requires q.Login?
  {
    match UserByEmail(t.users, q.email)
    case None => (t, Unauthorized)
    case Some(u) =>
      if t.users[u].locked || t.users[u].password != q.password then (t, Unauthorized)
      else
        var (withDevice, d) := LoginDevice(t, u, q.thumbprint);
        var cleared := withDevice.(sessions := RevokeDevice(withDevice.sessions, d));
        GenerateTokens(cleared, d, None, q.token, q.now)
  }

  ghost function ServeRefresh(t: Tables, q: Request): (Tables, Reply)
    requires q.Refresh?
  {
    if q.proof.NoHeader? then (t, Unauthorized)
    else
      match SessionByToken(t.sessions, q.presented)
      case None => (t, Unauthorized)
      case Some(i) =>
        var session := t.sessions[i];
        if session.deviceId >= |t.devices| then (t, Unauthorized)
        else if session.revoked then
          (t.(sessions := RevokeAll(t.sessions, Family(t.sessions, i))), ReuseDetected)
        else if q.now > session.expiresAt then (t, Unauthorized)
        else if q.proof.NoKey? then (t, Unauthorized)
        else if !q.proof.verified then (t, ServerError)
        else if q.proof.thumbprint != t.devices[session.deviceId].thumbprint then (t, KeyMismatch)
        else
          GenerateTokens(t.(sessions := t.sessions[i := Revoked(session)]), session.deviceId, Some(i), q.token, q.now)
  }

  function ServeLogout(t: Tables, sessionId: nat): (Tables, Reply) {
    if sessionId >= |t.sessions| then (t, NotFound)
    else (t.(sessions := t.sessions[sessionId := Revoked(t.sessions[sessionId])]), Done)
  }

  function DevicesOf(devices: seq<Device>, userId: nat): (ds: seq<nat>)
    ensures forall d: nat :: d in ds <==> d < |devices| && devices[d].userId == userId
  {
    if devices == [] then []
    else
      var last := |devices| - 1;
      DevicesOf(devices[..last], userId) + if devices[last].userId == userId then [last] else []
  }

  // The sessions after revoking every device in `ds`.
  function RevokeDevices(sessions: seq<Session>, ds: seq<nat>): (r: seq<Session>)
    ensures |r| == |sessions|
  {
    seq(|sessions|, i requires 0 <= i < |sessions| =>
      if sessions[i].deviceId in ds then Revoked(sessions[i]) else sessions[i])
  }

  function ServeReset(t: Tables, q: Request): (Tables, Reply)
    requires q.ResetVerify?
  {
    if !q.codeAccepted then (t, BadRequest)
    else
      match UserByEmail(t.users, q.email)
      case None => (t, NotFound)
      case Some(u) =>
        (t.(users := t.users[u := t.users[u].(password := q.newPassword)],
            sessions := RevokeDevices(t.sessions, DevicesOf(t.devices, u))), Done)
  }

  function ServeRegister(t: Tables, email: string, password: nat): (Tables, Reply) {
    if UserByEmail(t.users, email).Some? then (t, Conflict)
    else (t.(users := t.users + [User(email, password, false)]), Done)
  }

  ghost function Serve(t: Tables, q: Request): (Tables, Reply) {
    match q
    case Register(email, password) => ServeRegister(t, email, password)
    case Login(_, _, _, _, _) => ServeLogin(t, q)
    case Refresh(_, _, _, _) => ServeRefresh(t, q)
    case Logout(sessionId) => ServeLogout(t, sessionId)
    case ResetVerify(_, _, _) => ServeReset(t, q)
  }

  ghost function After(t: Tables, q: Request): Tables {
    Serve(t, q).0
  }

  // The tables after a run of requests.
  ghost function ServeAll(t: Tables, qs: seq<Request>): Tables
    decreases qs
  {
    if qs == [] then t else ServeAll(After(t, qs[0]), qs[1..])
  }

  /** The services, updating the tables in place */
  class AuthService {
    var users: seq<User>
    var devices: seq<Device>
    var sessions: seq<Session>

    constructor (t: Tables)
      ensures Stored() == t
    {
      users, devices, sessions := t.users, t.devices, t.sessions;
    }

    function Stored(): Tables
      reads this
    {
      Tables(users, devices, sessions)
    }

    method RevokeSession(id: nat) returns (found: bool)
      modifies this`sessions
      ensures found == (id < |old(sessions)|)
      ensures sessions == if found then old(sessions)[id := Revoked(old(sessions)[id])] else old(sessions)
    {
      if id >= |sessions| {
        return false;
      }
      sessions := sessions[id := sessions[id].(revoked := true)];
      return true;
    }

    method RevokeAllForDevice(d: nat)
      modifies this`sessions
      ensures |sessions| == |old(sessions)|
      ensures forall i :: 0 <= i < |sessions| && old(sessions)[i].deviceId == d ==>
                sessions[i] == old(sessions)[i].(revoked := true)
      ensures forall i :: 0 <= i < |sessions| && old(sessions)[i].deviceId != d ==> sessions[i] == old(sessions)[i]
    {
      sessions := RevokeDevice(sessions, d);
    }

    method RevokeTokenFamily(id: nat)
      modifies this`sessions
      ensures sessions == RevokeAll(old(sessions), Family(old(sessions), id))
    {
      var ids := FamilyIds(sessions, id);
      ghost var family := Family(sessions, id);
      assert forall i: nat :: i < |sessions| ==> (i in ids <==> i in family);
      sessions := RevokeAll(sessions, ids);
    }

    method IssueTokens(d: nat, parent: Option<nat>, token: nat, now: int) returns (reply: Reply)
      modifies this`sessions
      ensures (Stored(), reply) == GenerateTokens(old(Stored()), d, parent, token, now)
    {
      if SessionByToken(sessions, token).Some? {
        return ServerError;
      }
      var expiresAt := now + TOKEN_LIFETIME;
      sessions := sessions + [Session(d, token, parent, false, expiresAt)];
      reply := Tokens(|sessions| - 1, token);
    }

    method HandleLogin(email: string, password: nat, thumbprint: nat, now: int, token: nat) returns (reply: Reply)
      modifies this
      ensures (Stored(), reply) == Serve(old(Stored()), Login(email, password, thumbprint, now, token))
    {
      var user := UserByEmail(users, email);
      if user.None? || users[user.value].locked {
        return Unauthorized;
      }
      if users[user.value].password != password {
        return Unauthorized;
      }
      var device := DeviceByThumbprint(devices, thumbprint);
      if device.None? {
        devices := devices + [Device(user.value, thumbprint)];
        device := Some(|devices| - 1);
      }
      ghost var before := sessions;
      RevokeAllForDevice(device.value);
      assert sessions == RevokeDevice(before, device.value);
      reply := IssueTokens(device.value, None, token, now);
    }

    method HandleRefresh(presented: nat, proof: Proof, now: int, token: nat) returns (reply: Reply)
      modifies this`sessions
      ensures (Stored(), reply) == Serve(old(Stored()), Refresh(presented, proof, now, token))
    {
      if proof.NoHeader? {
        return Unauthorized;
      }
      var found := SessionByToken(sessions, presented);
      if found.None? || sessions[found.value].deviceId >= |devices| {
        return Unauthorized;
      }
      var session := sessions[found.value];
      if session.revoked {
        RevokeTokenFamily(found.value);
        return ReuseDetected;
      }
      if now > session.expiresAt {
        return Unauthorized;
      }
      if proof.NoKey? {
        return Unauthorized;
      }
      if !proof.verified {
        return ServerError;
      }
      if proof.thumbprint != devices[session.deviceId].thumbprint {
        return KeyMismatch;
      }
      var revoked := RevokeSession(found.value);
      reply := IssueTokens(session.deviceId, Some(found.value), token, now);
    }

    method HandleLogout(sessionId: nat) returns (reply: Reply)
      modifies this`sessions
      ensures (Stored(), reply) == Serve(old(Stored()), Logout(sessionId))
    {
      var found := RevokeSession(sessionId);
      reply := if found then Done else NotFound;
    }

    method HandleResetVerify(email: string, codeAccepted: bool, newPassword: nat) returns (reply: Reply)
      modifies this`users, this`sessions
      ensures (Stored(), reply) == Serve(old(Stored()), ResetVerify(email, codeAccepted, newPassword))
    {
      if !codeAccepted {
        return BadRequest;
      }
      var user := UserByEmail(users, email);
      if user.None? {
        return NotFound;
      }
      users := users[user.value := users[user.value].(password := newPassword)];
      var userDevices := DevicesOf(devices, user.value);
      for k := 0 to |userDevices|
        modifies this`sessions
        invariant sessions == RevokeDevices(old(sessions), userDevices[..k])
      {
        RevokeAllForDevice(userDevices[k]);
        assert userDevices[..k + 1] == userDevices[..k] + [userDevices[k]];
      }
      assert userDevices[..|userDevices|] == userDevices;
      reply := Done;
    }

    method HandleRegister(email: string, password: nat) returns (reply: Reply)
      modifies this`users
      ensures (Stored(), reply) == Serve(old(Stored()), Register(email, password))
    {
      if UserByEmail(users, email).Some? {
        return Conflict;
      }
      users := users + [User(email, password, false)];
      reply := Done;
    }
  }
}
