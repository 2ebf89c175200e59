/**
 One Redis keyspace shared by the one-time codes of registration, those of password reset, and the
 replay cache for DPoP proofs. Each request's store access is atomic; time is in milliseconds.
 */
module ExpiringKeys {
  import opened Wrappers

  // The two stores of one-time codes.
  datatype Kind = Registration | PasswordReset

  datatype Payload =
    | PendingRegistration(email: string, passwordHash: nat, fullName: string, otp: string)
    | PendingReset(email: string, otp: string)
    | Seen

  datatype Slot = Slot(payload: Payload, expiresAt: nat)

  type Keyspace = map<string, Slot>

  // 300 seconds, for codes and for proofs.
  const TTL := 300_000

  function Prefix(kind: Kind): string {
    match kind
    case Registration => "register:otp:"
    case PasswordReset => "reset:otp:"
  }

  const PROOF_PREFIX := "dpop:jti:"

  // A key is there until its expiry.
  function Get(store: Keyspace, now: nat, key: string): Option<Payload> {
    if key in store && now < store[key].expiresAt then Some(store[key].payload) else None
  }

  function SetEx(store: Keyspace, now: nat, key: string, payload: Payload): Keyspace {
    store[key := Slot(payload, now + TTL)]
  }

  function Del(store: Keyspace, key: string): Keyspace {
    store - {key}
  }

  function CodeOf(payload: Payload): Option<string> {
    match payload
    case PendingRegistration(_, _, _, otp) => Some(otp)
    case PendingReset(_, otp) => Some(otp)
    case Seen => None
  }

  /** Requests */

  // `jti` names a DPoP proof; `verified` says whether its signature and claims hold, `bodyOk` whether
  // its payload hash does.
  datatype Request =
    | SaveCode(kind: Kind, email: string, passwordHash: nat, fullName: string, otp: string)
    | VerifyCode(kind: Kind, email: string, otp: string)
    | ShowProof(jti: string, verified: bool, bodyOk: bool)
    | Elapse(milliseconds: nat)

  datatype Outcome = Saved | Accepted(payload: Payload) | Refused

  function PendingOf(q: Request): Payload
    requires q.SaveCode?
  {
    match q.kind
    case Registration => PendingRegistration(q.email, q.passwordHash, q.fullName, q.otp)
    case PasswordReset => PendingReset(q.email, q.otp)
  }

  function Handle(store: Keyspace, now: nat, q: Request): (Keyspace, Outcome) {
    match q
    case SaveCode(kind, email, _, _, _) =>
      var key := Prefix(kind) + email;
      var cleared := if Get(store, now, key).Some? then Del(store, key) else store;
      (SetEx(cleared, now, key, PendingOf(q)), Saved)
    case VerifyCode(kind, email, otp) =>
      var key := Prefix(kind) + email;
      (match Get(store, now, key)
       case None => (store, Refused)
       case Some(payload) =>
         if CodeOf(payload) != Some(otp) then (store, Refused) else (Del(store, key), Accepted(payload)))
    case ShowProof(jti, verified, bodyOk) =>
      var key := PROOF_PREFIX + jti;
      if !verified || jti == "" || Get(store, now, key).Some? then (store, Refused)
      else (SetEx(store, now, key, Seen), if bodyOk then Accepted(Seen) else Refused)
    case Elapse(_) => (store, Saved)
  }

  function Later(now: nat, q: Request): nat {
    if q.Elapse? then now + q.milliseconds else now
  }

  /** The services, sharing one client */

  class RedisClient {
    var store: Keyspace
    var now: nat

    constructor ()
      ensures store == map[] && now == 0
    {
      store, now := map[], 0;
    }

    method Read(key: string) returns (r: Option<Payload>)
      ensures r == Get(store, now, key)
    {
      r := if key in store && now < store[key].expiresAt then Some(store[key].payload) else None;
    }

    method Write(key: string, payload: Payload)
      modifies this`store
      ensures store == SetEx(old(store), now, key, payload)
    {
      store := store[key := Slot(payload, now + TTL)];
    }

    method Delete(key: string)
      modifies this`store
      ensures store == Del(old(store), key)
    {
      store := store - {key};
    }
  }

  class OtpService {
    const redisClient: RedisClient

    constructor (redisClient: RedisClient)
      ensures this.redisClient == redisClient
    {
      this.redisClient := redisClient;
    }

    // The start of a registration or reset: drops a pending code, then stores the new one.
    method Save(kind: Kind, email: string, passwordHash: nat, fullName: string, otp: string)
      modifies redisClient`store
      ensures redisClient.store ==
              Handle(old(redisClient.store), redisClient.now, SaveCode(kind, email, passwordHash, fullName, otp)).0
    {
      var key := Prefix(kind) + email;
      var existingPending := redisClient.Read(key);
      if existingPending.Some? {
        redisClient.Delete(key);
      }
      var payload := PendingOf(SaveCode(kind, email, passwordHash, fullName, otp));
      redisClient.Write(key, payload);
    }

    method VerifyAndRetrieve(kind: Kind, email: string, providedOtp: string) returns (r: Outcome)
      modifies redisClient`store
      ensures (redisClient.store, r) ==
              Handle(old(redisClient.store), redisClient.now, VerifyCode(kind, email, providedOtp))
    {
      var key := Prefix(kind) + email;
      var stored := redisClient.Read(key);
      if stored.None? {
        return Refused;
      }
      if CodeOf(stored.value) != Some(providedOtp) {
        return Refused;
      }
      redisClient.Delete(key);
      r := Accepted(stored.value);
    }
  }

  class DPoPGuard {
    const redisClient: RedisClient

    constructor (redisClient: RedisClient)
      ensures this.redisClient == redisClient
    {
      this.redisClient := redisClient;
    }

    method CanActivate(jti: string, verified: bool, bodyOk: bool) returns (r: Outcome)
      modifies redisClient`store
      ensures (redisClient.store, r) ==
              Handle(old(redisClient.store), redisClient.now, ShowProof(jti, verified, bodyOk))
    {
      if !verified || jti == "" {
        return Refused;
      }
      var isReplayed := redisClient.Read(PROOF_PREFIX + jti);
      if isReplayed.Some? {
        return Refused;
      }
      redisClient.Write(PROOF_PREFIX + jti, Seen);
      r := if bodyOk then Accepted(Seen) else Refused;
    }
  }

  /** Three independent maps */

  datatype Issued = Issued(payload: Payload, at: nat)

  // For each email the latest unused code, and for each proof when it was recorded last.
  datatype Maps = Maps(registrations: map<string, Issued>, resets: map<string, Issued>, proofs: map<string, nat>)

  const NO_MAPS := Maps(map[], map[], map[])

  function Codes(m: Maps, kind: Kind): map<string, Issued> {
    match kind
    case Registration => m.registrations
    case PasswordReset => m.resets
  }

  function WithCodes(m: Maps, kind: Kind, codes: map<string, Issued>): Maps {
    match kind
    case Registration => m.(registrations := codes)
    case PasswordReset => m.(resets := codes)
  }

  function HandleApart(m: Maps, now: nat, q: Request): (Maps, Outcome) {
    match q
    case SaveCode(kind, email, _, _, _) =>
      (WithCodes(m, kind, Codes(m, kind)[email := Issued(PendingOf(q), now)]), Saved)
    case VerifyCode(kind, email, otp) =>
      var codes := Codes(m, kind);
      if email in codes && now < codes[email].at + TTL && CodeOf(codes[email].payload) == Some(otp)
      then (WithCodes(m, kind, codes - {email}), Accepted(codes[email].payload))
      else (m, Refused)
    case ShowProof(jti, verified, bodyOk) =>
      if !verified || jti == "" || (jti in m.proofs && now < m.proofs[jti] + TTL) then (m, Refused)
      else (m.(proofs := m.proofs[jti := now]), if bodyOk then Accepted(Seen) else Refused)
    case Elapse(_) => (m, Saved)
  }

  /** The keyspace refines the maps */

  lemma KeysApart(kind: Kind, other: Kind, a: string, b: string)
    ensures Prefix(kind) + a == Prefix(other) + b ==> kind == other && a == b
    ensures Prefix(kind) + a != PROOF_PREFIX + b
    ensures PROOF_PREFIX + a == PROOF_PREFIX + b ==> a == b
  {
    var p, q := Prefix(kind), Prefix(other);
    assert (p + a)[0] == 'r' && (PROOF_PREFIX + b)[0] == 'd';
    if p + a == q + b {
      assert (p + a)[2] == p[2] && (q + b)[2] == q[2];
      assert kind == other;
      assert (p + a)[|p|..] == a && (q + b)[|q|..] == b;
    }
    if PROOF_PREFIX + a == PROOF_PREFIX + b {
      assert (PROOF_PREFIX + a)[|PROOF_PREFIX|..] == a && (PROOF_PREFIX + b)[|PROOF_PREFIX|..] == b;
    }
  }

  ghost predicate CodesAgree(store: Keyspace, m: Maps, kind: Kind, email: string) {
    var key := Prefix(kind) + email;
    && (key in store <==> email in Codes(m, kind))
    && (key in store ==>
          store[key] == Slot(Codes(m, kind)[email].payload, Codes(m, kind)[email].at + TTL))
  }

  ghost predicate ProofsAgree(store: Keyspace, m: Maps, jti: string) {
    var key := PROOF_PREFIX + jti;
    && (key in store <==> jti in m.proofs)
    && (key in store ==> store[key] == Slot(Seen, m.proofs[jti] + TTL))
  }

  ghost predicate Refines(store: Keyspace, m: Maps) {
    (forall kind, email :: CodesAgree(store, m, kind, email)) && forall jti :: ProofsAgree(store, m, jti)
  }

  lemma OutcomesAgree(store: Keyspace, m: Maps, now: nat, q: Request)
    requires Refines(store, m)
    ensures Handle(store, now, q).1 == HandleApart(m, now, q).1
  {
    if q.SaveCode? || q.VerifyCode? {
      assert CodesAgree(store, m, q.kind, q.email);
    } else if q.ShowProof? {
      assert ProofsAgree(store, m, q.jti);
    }
  }

  lemma CodesStillAgree(store: Keyspace, m: Maps, now: nat, q: Request, kind: Kind, email: string)
    requires Refines(store, m)
    ensures CodesAgree(Handle(store, now, q).0, HandleApart(m, now, q).0, kind, email)
  {
    assert CodesAgree(store, m, kind, email);
    if q.SaveCode? || q.VerifyCode? {
      assert CodesAgree(store, m, q.kind, q.email);
      KeysApart(kind, q.kind, email, q.email);
    } else if q.ShowProof? {
      KeysApart(kind, kind, email, q.jti);
    }
  }

  lemma ProofsStillAgree(store: Keyspace, m: Maps, now: nat, q: Request, jti: string)
    requires Refines(store, m)
    ensures ProofsAgree(Handle(store, now, q).0, HandleApart(m, now, q).0, jti)
  {
    assert ProofsAgree(store, m, jti);
    if q.SaveCode? || q.VerifyCode? {
      KeysApart(q.kind, q.kind, q.email, jti);
    } else if q.ShowProof? {
      assert ProofsAgree(store, m, q.jti);
      KeysApart(Registration, Registration, jti, q.jti);
    }
  }

  lemma HandleRefines(store: Keyspace, m: Maps, now: nat, q: Request)
    requires Refines(store, m)
    ensures Refines(Handle(store, now, q).0, HandleApart(m, now, q).0)
    ensures Handle(store, now, q).1 == HandleApart(m, now, q).1
  {
    OutcomesAgree(store, m, now, q);
    forall kind: Kind, email: string {
      CodesStillAgree(store, m, now, q, kind, email);
    }
    forall jti: string {
      ProofsStillAgree(store, m, now, q, jti);
    }
  }

  /** Runs */

  // The time at which the request after `qs` is handled.
  function Clock(qs: seq<Request>): nat {
    if qs == [] then 0 else Later(Clock(qs[..|qs| - 1]), qs[|qs| - 1])
  }

  function StoreAfter(qs: seq<Request>): Keyspace {
    if qs == [] then map[]
    else Handle(StoreAfter(qs[..|qs| - 1]), Clock(qs[..|qs| - 1]), qs[|qs| - 1]).0
  }

  function MapsAfter(qs: seq<Request>): Maps {
    if qs == [] then NO_MAPS
    else HandleApart(MapsAfter(qs[..|qs| - 1]), Clock(qs[..|qs| - 1]), qs[|qs| - 1]).0
  }

  // How the i-th request of a run ends.
  function OutcomeAt(qs: seq<Request>, i: nat): Outcome
    requires i < |qs|
  {
    Handle(StoreAfter(qs[..i]), Clock(qs[..i]), qs[i]).1
  }

  lemma {:induction false} RunRefines(qs: seq<Request>)
    ensures Refines(StoreAfter(qs), MapsAfter(qs))
  {
    if qs != [] {
      var last := |qs| - 1;
      RunRefines(qs[..last]);
      HandleRefines(StoreAfter(qs[..last]), MapsAfter(qs[..last]), Clock(qs[..last]), qs[last]);
    }
  }

  /** In every run, the one keyspace answers every request as three independent expiring maps would. */
  lemma KeyspaceRefinesMaps(qs: seq<Request>, i: nat)
    requires i < |qs|
    ensures OutcomeAt(qs, i) == HandleApart(MapsAfter(qs[..i]), Clock(qs[..i]), qs[i]).1
  {
    RunRefines(qs[..i]);
    HandleRefines(StoreAfter(qs[..i]), MapsAfter(qs[..i]), Clock(qs[..i]), qs[i]);
  }

  lemma OutcomeInPrefix(qs: seq<Request>, n: nat, i: nat)
    requires i < n <= |qs|
    ensures qs[..n][..i] == qs[..i] && OutcomeAt(qs[..n], i) == OutcomeAt(qs, i)
  {
    assert qs[..n][..i] == qs[..i];
  }

  lemma {:induction false} ClockAdvances(qs: seq<Request>, i: nat)
    requires i <= |qs|
    ensures Clock(qs[..i]) <= Clock(qs)
  {
    if i < |qs| {
      var last := |qs| - 1;
      assert qs[..last][..i] == qs[..i];
      ClockAdvances(qs[..last], i);
    } else {
      assert qs[..i] == qs;
    }
  }

  lemma ProofAfterOne(m: Maps, now: nat, q: Request, jti: string)
    ensures var (n, outcome) := HandleApart(m, now, q);
            && (q.ShowProof? && q.jti == jti && outcome.Accepted? ==> jti in n.proofs && n.proofs[jti] == now)
            && (jti in m.proofs ==> jti in n.proofs && (n.proofs[jti] == m.proofs[jti] || n.proofs[jti] == now))
  {}

  // An accepted proof stays on record, with a time no earlier than its acceptance.
  lemma {:induction false} ProofOnRecord(qs: seq<Request>, i: nat)
    requires i < |qs| && qs[i].ShowProof? && OutcomeAt(qs, i).Accepted?
    ensures qs[i].jti in MapsAfter(qs).proofs && MapsAfter(qs).proofs[qs[i].jti] >= Clock(qs[..i])
  {
    var last := |qs| - 1;
    ProofAfterOne(MapsAfter(qs[..last]), Clock(qs[..last]), qs[last], qs[i].jti);
    if i < last {
      OutcomeInPrefix(qs, last, i);
      ProofOnRecord(qs[..last], i);
      ClockAdvances(qs[..last], i);
    } else {
      KeyspaceRefinesMaps(qs, i);
    }
  }

  /** Two accepted proofs with one `jti` are at least 300 seconds apart. */
  lemma AcceptedProofsApart(qs: seq<Request>, i: nat, j: nat)
    requires i < j < |qs| && qs[i].ShowProof? && qs[j].ShowProof? && qs[i].jti == qs[j].jti
    requires OutcomeAt(qs, i).Accepted? && OutcomeAt(qs, j).Accepted?
    ensures Clock(qs[..j]) >= Clock(qs[..i]) + 300_000
  {
    KeyspaceRefinesMaps(qs, j);
    OutcomeInPrefix(qs, j, i);
    ProofOnRecord(qs[..j], i);
  }

  // The i-th request shows a verified proof of that name which is not a replay: none of that name was recorded
  // in the 300 seconds before.
  predicate Records(qs: seq<Request>, i: nat, jti: string)
    requires i < |qs|
  {
    && qs[i].ShowProof? && qs[i].jti == jti && qs[i].verified && jti != ""
    && forall k :: 0 <= k < i && Records(qs, k, jti) ==> Clock(qs[..i]) >= Clock(qs[..k]) + 300_000
  }

  lemma {:induction false} RecordsInPrefix(qs: seq<Request>, n: nat, i: nat, jti: string)
    requires i < n <= |qs|
    ensures Records(qs[..n], i, jti) <==> Records(qs, i, jti)
    decreases i
  {
    assert qs[..n][..i] == qs[..i];
    forall k | 0 <= k < i
      ensures Records(qs[..n], k, jti) <==> Records(qs, k, jti)
      ensures qs[..n][..k] == qs[..k]
    {
      RecordsInPrefix(qs, n, k, jti);
    }
  }

  // The maps hold the time at which the name was recorded last.
  ghost predicate LastRecord(qs: seq<Request>, jti: string, i: nat) {
    && i < |qs| && Records(qs, i, jti)
    && (forall k :: i < k < |qs| ==> !Records(qs, k, jti))
    && jti in MapsAfter(qs).proofs && MapsAfter(qs).proofs[jti] == Clock(qs[..i])
  }

  lemma {:induction false} ProofsAreRecords(qs: seq<Request>, jti: string)
    ensures if jti in MapsAfter(qs).proofs then exists i: nat :: LastRecord(qs, jti, i)
            else forall k :: 0 <= k < |qs| ==> !Records(qs, k, jti)
    decreases qs
  {
    if qs != [] {
      var last := |qs| - 1;
      ProofsAreRecords(qs[..last], jti);
      forall k | 0 <= k < last
        ensures Records(qs[..last], k, jti) <==> Records(qs, k, jti)
        ensures qs[..last][..k] == qs[..k]
      {
        RecordsInPrefix(qs, last, k, jti);
      }
      RecordStep(qs, jti);
      if Records(qs, last, jti) {
        assert LastRecord(qs, jti, last);
      } else if jti in MapsAfter(qs).proofs {
        var i: nat :| LastRecord(qs[..last], jti, i);
        assert LastRecord(qs, jti, i);
      }
    }
  }

  // What one more request does to the record of a name.
  lemma RecordStep(qs: seq<Request>, jti: string)
    requires qs != []
    requires var front := qs[..|qs| - 1];
             if jti in MapsAfter(front).proofs then exists i: nat :: LastRecord(front, jti, i)
             else forall k :: 0 <= k < |front| ==> !Records(front, k, jti)
    ensures var last := |qs| - 1;
            var before, after := MapsAfter(qs[..last]).proofs, MapsAfter(qs).proofs;
            if Records(qs, last, jti) then jti in after && after[jti] == Clock(qs[..last])
            else (jti in after <==> jti in before) && (jti in after ==> after[jti] == before[jti])
  {
    var last := |qs| - 1;
    var front := qs[..last];
    RecordsIff(qs, jti);
  }

  // The last request records a name exactly if the maps let it.
  lemma RecordsIff(qs: seq<Request>, jti: string)
    requires qs != []
    requires var front := qs[..|qs| - 1];
             if jti in MapsAfter(front).proofs then exists i: nat :: LastRecord(front, jti, i)
             else forall k :: 0 <= k < |front| ==> !Records(front, k, jti)
    ensures var last := |qs| - 1;
            var m, q := MapsAfter(qs[..last]), qs[last];
            Records(qs, last, jti) <==>
              q.ShowProof? && q.jti == jti && q.verified && jti != "" &&
              (jti in m.proofs ==> Clock(qs[..last]) >= m.proofs[jti] + 300_000)
  {
    var last := |qs| - 1;
    var front := qs[..last];
    forall k | 0 <= k < last
      ensures Records(front, k, jti) <==> Records(qs, k, jti)
      ensures front[..k] == qs[..k]
    {
      RecordsInPrefix(qs, last, k, jti);
    }
    if jti in MapsAfter(front).proofs {
      var i: nat :| LastRecord(front, jti, i);
      assert Records(qs, i, jti);
      forall k | 0 <= k < last && Records(qs, k, jti)
        ensures Clock(qs[..k]) <= Clock(qs[..i])
      {
        assert Records(front, k, jti);
        assert k <= i;
        assert qs[..i][..k] == qs[..k];
        ClockAdvances(qs[..i], k);
      }
    }
  }

  /**
   A proof is accepted exactly if it is verified and named, its payload hash is right, and no proof of that name
   was recorded in the 300 seconds before. A proof whose payload hash is wrong is recorded all the same.
   */
  lemma ProofAcceptedIff(qs: seq<Request>, j: nat)
    requires j < |qs| && qs[j].ShowProof?
    ensures OutcomeAt(qs, j) == Accepted(Seen) <==> Records(qs, j, qs[j].jti) && qs[j].bodyOk
    ensures OutcomeAt(qs, j) == Accepted(Seen) || OutcomeAt(qs, j) == Refused
  {
    var upTo := qs[..j + 1];
    assert upTo[..j] == qs[..j];
    KeyspaceRefinesMaps(qs, j);
    ProofsAreRecords(qs[..j], qs[j].jti);
    RecordsIff(upTo, qs[j].jti);
    RecordsInPrefix(qs, j + 1, j, qs[j].jti);
  }

  predicate SavesFor(q: Request, kind: Kind, email: string) {
    q.SaveCode? && q.kind == kind && q.email == email
  }

  predicate SpendsFor(qs: seq<Request>, k: nat, kind: Kind, email: string)
    requires k < |qs|
  {
    qs[k].VerifyCode? && qs[k].kind == kind && qs[k].email == email && OutcomeAt(qs, k).Accepted?
  }

  // The i-th request saved a code for this email, and it is the latest and unspent up to `n`.
  ghost predicate LatestUnspent(qs: seq<Request>, i: nat, n: nat, kind: Kind, email: string)
    requires i < n <= |qs|
  {
    SavesFor(qs[i], kind, email) &&
    forall k :: i < k < n ==> !SavesFor(qs[k], kind, email) && !SpendsFor(qs, k, kind, email)
  }

  lemma LatestInPrefix(qs: seq<Request>, i: nat, n: nat, kind: Kind, email: string)
    requires i < n <= |qs|
    ensures LatestUnspent(qs[..n], i, n, kind, email) <==> LatestUnspent(qs, i, n, kind, email)
  {
    forall k | i < k < n
      ensures SpendsFor(qs[..n], k, kind, email) <==> SpendsFor(qs, k, kind, email)
    {
      OutcomeInPrefix(qs, n, k);
    }
  }

  // The code on record for an email, after one more request.
  lemma CodeAfterOne(m: Maps, now: nat, q: Request, kind: Kind, email: string)
    ensures var (n, outcome) := HandleApart(m, now, q);
            var before, after := Codes(m, kind), Codes(n, kind);
            if SavesFor(q, kind, email) then email in after && after[email] == Issued(PendingOf(q), now)
            else if q.VerifyCode? && q.kind == kind && q.email == email && outcome.Accepted? then email !in after
            else (email in after <==> email in before) && (email in after ==> after[email] == before[email])
  {}

  lemma CodeAfter(qs: seq<Request>, kind: Kind, email: string)
    requires qs != []
    ensures var last := |qs| - 1;
            var before, after := Codes(MapsAfter(qs[..last]), kind), Codes(MapsAfter(qs), kind);
            if SavesFor(qs[last], kind, email)
            then email in after && after[email] == Issued(PendingOf(qs[last]), Clock(qs[..last]))
            else if SpendsFor(qs, last, kind, email) then email !in after
            else (email in after <==> email in before) && (email in after ==> after[email] == before[email])
  {
    var last := |qs| - 1;
    KeyspaceRefinesMaps(qs, last);
    CodeAfterOne(MapsAfter(qs[..last]), Clock(qs[..last]), qs[last], kind, email);
  }

  // Where a code on record comes from.
  lemma {:induction false} CodeOrigin(qs: seq<Request>, kind: Kind, email: string) returns (i: nat)
    requires email in Codes(MapsAfter(qs), kind)
    ensures i < |qs| && LatestUnspent(qs, i, |qs|, kind, email)
    ensures Codes(MapsAfter(qs), kind)[email] == Issued(PendingOf(qs[i]), Clock(qs[..i]))
  {
    var last := |qs| - 1;
    CodeAfter(qs, kind, email);
    if SavesFor(qs[last], kind, email) {
      i := last;
    } else {
      i := CodeOrigin(qs[..last], kind, email);
      assert qs[..last][..i] == qs[..i];
      LatestInPrefix(qs, i, last, kind, email);
    }
  }

  /**
   A code is accepted only if it is the latest saved for that email and purpose, has not been spent
   since, and is less than 300 seconds old; what is handed back is what was saved with it, field by field.
   */
  lemma AcceptedCodeIsLatest(qs: seq<Request>, j: nat) returns (i: nat)
    requires j < |qs| && qs[j].VerifyCode? && OutcomeAt(qs, j).Accepted?
    ensures i < j && LatestUnspent(qs, i, j, qs[j].kind, qs[j].email)
    ensures qs[i].otp == qs[j].otp && Clock(qs[..j]) < Clock(qs[..i]) + 300_000
    ensures qs[i].email == qs[j].email
    ensures OutcomeAt(qs, j) ==
            Accepted(if qs[j].kind.Registration?
                     then PendingRegistration(qs[i].email, qs[i].passwordHash, qs[i].fullName, qs[i].otp)
                     else PendingReset(qs[i].email, qs[i].otp))
  {
    KeyspaceRefinesMaps(qs, j);
    i := CodeOrigin(qs[..j], qs[j].kind, qs[j].email);
    assert qs[..j][..i] == qs[..i];
    LatestInPrefix(qs, i, j, qs[j].kind, qs[j].email);
  }

  /** Each saved code authorises at most one success: between two successes a new code was saved. */
  lemma NewCodeBetweenSuccesses(qs: seq<Request>, j: nat, k: nat)
    requires j < k < |qs| && qs[j].VerifyCode? && qs[k].VerifyCode?
    requires qs[j].kind == qs[k].kind && qs[j].email == qs[k].email
    requires OutcomeAt(qs, j).Accepted? && OutcomeAt(qs, k).Accepted?
    ensures exists i :: j < i < k && SavesFor(qs[i], qs[k].kind, qs[k].email)
  {
    var i := AcceptedCodeIsLatest(qs, k);
    assert SpendsFor(qs, j, qs[k].kind, qs[k].email);
  }

  lemma {:induction false} LatestIsOnRecord(qs: seq<Request>, i: nat, kind: Kind, email: string)
    requires i < |qs| && LatestUnspent(qs, i, |qs|, kind, email)
    ensures email in Codes(MapsAfter(qs), kind)
    ensures Codes(MapsAfter(qs), kind)[email] == Issued(PendingOf(qs[i]), Clock(qs[..i]))
  {
    var last := |qs| - 1;
    CodeAfter(qs, kind, email);
    if i < last {
      assert qs[..last][..i] == qs[..i];
      LatestInPrefix(qs, i, last, kind, email);
      LatestIsOnRecord(qs[..last], i, kind, email);
    }
  }

  /** And conversely: the latest unspent code, presented in time, is accepted. */
  lemma FreshCodeIsAccepted(qs: seq<Request>, i: nat, j: nat)
    requires i < j < |qs| && qs[j].VerifyCode? && LatestUnspent(qs, i, j, qs[j].kind, qs[j].email)
    requires qs[i].otp == qs[j].otp && Clock(qs[..j]) < Clock(qs[..i]) + 300_000
    ensures OutcomeAt(qs, j) ==
            Accepted(if qs[j].kind.Registration?
                     then PendingRegistration(qs[i].email, qs[i].passwordHash, qs[i].fullName, qs[i].otp)
                     else PendingReset(qs[i].email, qs[i].otp))
  {
    KeyspaceRefinesMaps(qs, j);
    assert qs[..j][..i] == qs[..i];
    LatestInPrefix(qs, i, j, qs[j].kind, qs[j].email);
    LatestIsOnRecord(qs[..j], i, qs[j].kind, qs[j].email);
  }

  /** In seconds on the clock */

  lemma ThreeRequests(a: Request, wait: nat, c: Request)
    requires !a.Elapse?
    ensures var qs := [a, Elapse(wait), c];
            && Clock(qs[..0]) == 0 && Clock(qs[..1]) == 0 && Clock(qs[..2]) == wait
            && qs[..1] == [a] && qs[..2] == [a, Elapse(wait)]
  {
    var qs := [a, Elapse(wait), c];
    assert qs[..1] == [a] && qs[..1][..0] == [] && qs[..2] == [a, Elapse(wait)] && qs[..2][..1] == [a];
  }

  /** A code that is saved and shown again after some time is accepted exactly within 300 seconds. */
  lemma CodeExpires(save: Request, wait: nat)
    requires save.SaveCode?
    ensures var verify := VerifyCode(save.kind, save.email, save.otp);
            OutcomeAt([save, Elapse(wait), verify], 2).Accepted? <==> wait < 300_000
  {
    var verify := VerifyCode(save.kind, save.email, save.otp);
    var qs := [save, Elapse(wait), verify];
    ThreeRequests(save, wait, verify);
    if wait < 300_000 {
      assert LatestUnspent(qs, 0, 2, save.kind, save.email);
      FreshCodeIsAccepted(qs, 0, 2);
    } else if OutcomeAt(qs, 2).Accepted? {
      var i := AcceptedCodeIsLatest(qs, 2);
    }
  }

  /** A good proof that is shown twice is accepted the second time exactly from 300 seconds on. */
  lemma ProofExpires(jti: string, wait: nat)
    requires jti != ""
    ensures var show := ShowProof(jti, true, true);
            && OutcomeAt([show, Elapse(wait), show], 0).Accepted?
            && (OutcomeAt([show, Elapse(wait), show], 2).Accepted? <==> wait >= 300_000)
  {
    var show := ShowProof(jti, true, true);
    var qs := [show, Elapse(wait), show];
    ThreeRequests(show, wait, show);
    ProofAcceptedIff(qs, 0);
    ProofAcceptedIff(qs, 2);
    assert Records(qs, 0, jti) && !Records(qs, 1, jti);
  }
}
