/**
 What the interceptor does for the requests it holds back: which answers start a refresh, what its outcome
 means for each request, and that a login is followed by a request that succeeds after its access token has
 expired.
 */
module ClientProgress {
  import opened Wrappers
  import opened Sessions
  import opened SessionSafety
  import opened Client
  import opened ClientRuns

  // All requests but the i-th are as they were, and so is the token store.
  predicate OnlyRequest(b: Browser, n: Browser, i: nat) {
    && |n.requests| == |b.requests| && n.stored == b.stored && n.access == b.access
    && forall j :: 0 <= j < |b.requests| && j != i ==> n.requests[j] == b.requests[j]
  }

  /** A request is under way to the server */

  /**
   A new application request is sent once and has not been retried, except while the page is still starting up:
   until the start-up refresh has settled it sends nothing.
   */
  lemma SendSends(s: System, r: nat)
    ensures var b, n := s.browser, Apply(s, r, Send).browser;
            var startingUp := MidRefresh(b) && b.refreshing.starter == StartUp;
            n == if startingUp then b else b.(requests := b.requests + [AppRequest(InFlight, false, 1)])
  {}

  /**
   A 401 for a request that has not been retried, while a token is stored: the request is flagged and waits, and
   a refresh with the stored token is started if none is under way; otherwise the one under way is shared.
   */
  lemma UnauthorizedWaits(s: System, r: nat, steps: seq<Step>, i: nat)
    requires LoggedIn(s, r)
    requires var b := Run(s, r, steps).browser;
             i < |b.requests| && b.requests[i].phase.InFlight? && !b.requests[i].retry && b.stored.Some?
    ensures var b := Run(s, r, steps).browser;
            var n := Apply(Run(s, r, steps), r, Response(i, true)).browser;
            && OnlyRequest(b, n, i)
            && n.requests[i] == AppRequest(Waiting, true, b.requests[i].sends)
            && MidRefresh(n)
            && n.asks == (if MidRefresh(b) then b.asks else b.asks + 1)
            && n.refreshing == (if MidRefresh(b) then b.refreshing else Asking(b.stored.value, Interceptor))
  {
    LoggingOutIsEmpty(s, r, steps);
  }

  // While the logout call of a failed refresh is under way no token is stored.
  ghost predicate Emptied(b: Browser) {
    b.refreshing.LoggingOut? ==> b.stored.None?
  }

  lemma {:induction false} RunKeepsEmptied(s: System, r: nat, steps: seq<Step>)
    requires Emptied(s.browser)
    ensures Emptied(Run(s, r, steps).browser)
    decreases steps
  {
    if steps != [] {
      StepKeepsEmptied(s, r, steps[0]);
      RunKeepsEmptied(Apply(s, r, steps[0]), r, steps[1..]);
    }
  }

  lemma StepKeepsEmptied(s: System, r: nat, step: Step)
    requires Emptied(s.browser)
    ensures Emptied(Apply(s, r, step).browser)
  {
    if IsLocal(step) {
      LocalMoves(s, r, step);
    }
  }

  lemma LoggingOutIsEmpty(s: System, r: nat, steps: seq<Step>)
    requires LoggedIn(s, r)
    ensures var b := Run(s, r, steps).browser; b.stored.Some? ==> !b.refreshing.LoggingOut?
  {
    RunKeepsEmptied(s, r, steps);
  }

  /**
   Every other answer settles the request and starts nothing: a success or another error, a 401 for a request
   that was retried before, and a 401 when no token is stored.
   */
  lemma OtherAnswersSettle(s: System, r: nat, i: nat, unauthorized: bool)
    requires i < |s.browser.requests| && s.browser.requests[i].phase.InFlight?
    requires !unauthorized || s.browser.requests[i].retry || s.browser.stored.None?
    ensures var b, n := s.browser, Apply(s, r, Response(i, unauthorized)).browser;
            && OnlyRequest(b, n, i)
            && n.requests[i].phase.Settled? && n.requests[i].sends == b.requests[i].sends
            && n.refreshing == b.refreshing && n.asks == b.asks
  {}

  /** The outcome of a refresh */

  lemma MapEach(f: AppRequest -> AppRequest, requests: seq<AppRequest>)
    ensures |Map(f, requests)| == |requests|
    ensures forall i :: 0 <= i < |requests| ==> Map(f, requests)[i] == f(requests[i])
  {}

  // What becomes of a request when the waiting ones go on in this phase, sent again that often.
  predicate GoesOn(before: AppRequest, after: AppRequest, phase: Phase, again: nat) {
    after == if before.phase.Waiting? then AppRequest(phase, before.retry, before.sends + again) else before
  }

  /**
   When a refresh was answered with tokens and the answer arrives, the new token is stored, every request that
   waited is sent once more, and the others are left alone.
   */
  lemma TokensResend(s: System, r: nat)
    requires s.browser.refreshing.Answered? && s.browser.refreshing.reply.Some?
    requires s.browser.refreshing.reply.value.Tokens?
    ensures var b, n := s.browser, Apply(s, r, AnswerArrives(false)).browser;
            && n.stored == Some(b.refreshing.reply.value.token) && n.access && n.refreshing.Idle? && n.asks == b.asks
            && |n.requests| == |b.requests|
            && forall i :: 0 <= i < |b.requests| ==> GoesOn(b.requests[i], n.requests[i], InFlight, 1)
  {
    MapEach(Resent, s.browser.requests);
  }

  /**
   When a refresh of the interceptor fails, by a refusal, a lost question or a lost answer, both tokens are
   dropped, and once the logout that follows has settled every request that waited is rejected.
   */
  lemma FailureRejects(s: System, r: nat, lost: bool)
    requires s.browser.refreshing.Answered? && s.browser.refreshing.starter == Interceptor
    requires lost || s.browser.refreshing.reply.None? || !s.browser.refreshing.reply.value.Tokens?
    ensures var b, n := s.browser, Apply(s, r, AnswerArrives(lost)).browser;
            n == b.(stored := None, access := false, refreshing := LoggingOut)
    ensures var b, n := s.browser, Apply(Apply(s, r, AnswerArrives(lost)), r, LogoutSettles).browser;
            && n.stored.None? && !n.access && n.refreshing.Idle? && |n.requests| == |b.requests|
            && forall i :: 0 <= i < |b.requests| ==> GoesOn(b.requests[i], n.requests[i], Settled, 0)
  {
    MapEach(Rejected, s.browser.requests);
  }

  /** A start-up refresh that fails leaves the page without tokens and calls no logout. */
  lemma StartUpFailure(s: System, r: nat, lost: bool)
    requires s.browser.refreshing.Answered? && s.browser.refreshing.starter == StartUp
    requires lost || s.browser.refreshing.reply.None? || !s.browser.refreshing.reply.value.Tokens?
    ensures Apply(s, r, AnswerArrives(lost)).browser ==
            s.browser.(stored := None, access := false, refreshing := Idle)
  {}

  /** A reload settles what was under way and, if a token is stored, asks with it before anything is sent. */
  lemma ReloadAsks(s: System, r: nat)
    ensures var b, n := s.browser, Apply(s, r, Reload).browser;
            && n.stored == b.stored && !n.access && n.asks == b.asks && |n.requests| == |b.requests|
            && (forall i :: 0 <= i < |b.requests| ==> n.requests[i] == b.requests[i].(phase := Settled))
            && n.refreshing == (if b.stored.Some? then Asking(b.stored.value, StartUp) else Idle)
            && (b.stored.Some? ==> Apply(Apply(s, r, Reload), r, Send).browser == n)
  {
    MapEach(Abandoned, s.browser.requests);
  }

  /** From a login to a request that is sent again */

  lemma RunFour(s: System, r: nat, a: Step, b: Step, c: Step, d: Step)
    ensures Run(s, r, [a, b, c, d]) == Apply(Apply(Apply(Apply(s, r, a), r, b), r, c), r, d)
  {
    var s1 := Apply(s, r, a);
    var s2 := Apply(s1, r, b);
    assert [a, b, c, d][1..] == [b, c, d] && [b, c, d][1..] == [c, d] && [c, d][1..] == [d] && [d][1..] == [];
    assert Run(s, r, [a, b, c, d]) == Run(s1, r, [b, c, d]) == Run(s2, r, [c, d]);
    assert Run(s2, r, [c, d]) == Run(Apply(s2, r, c), r, [d]);
  }

  // The session of the stored token has not expired at that time, and the proof is made with its device's key.
  ghost predicate InTimeWithKey(s: System, now: int, proof: Proof) {
    s.browser.stored.Some? &&
    var t, found := s.server, SessionByToken(s.server.sessions, s.browser.stored.value);
    && found.Some? && now <= t.sessions[found.value].expiresAt && t.sessions[found.value].deviceId < |t.devices|
    && proof == Key(t.devices[t.sessions[found.value].deviceId].thumbprint, true)
  }

  lemma InTimeIsRotated(s: System, r: nat, now: int, proof: Proof, next: nat)
    requires LoggedIn(s, r) && InTimeWithKey(s, now, proof)
    requires forall j :: 0 <= j < |s.server.sessions| ==> s.server.sessions[j].token != next
    ensures Serve(s.server, Refresh(s.browser.stored.value, proof, now, next)).1 == Tokens(|s.server.sessions|, next)
  {
    var t := s.server;
    var i := SessionByToken(t.sessions, s.browser.stored.value).value;
    var rotated := t.sessions[i := Revoked(t.sessions[i])];
    assert forall j :: 0 <= j < |rotated| ==> rotated[j].token != next;
  }

  /**
   After a login the interceptor makes an expired access token invisible to the application: a request answered
   401 ends up in flight again, sent twice, with the rotated token stored, as soon as the refresh is served in
   time and its answer arrives.
   */
  lemma ExpiredAccessIsRenewed(s: System, r: nat, now: int, proof: Proof, next: nat)
    requires LoggedIn(s, r) && now >= s.clock && InTimeWithKey(s, now, proof)
    requires forall j :: 0 <= j < |s.server.sessions| ==> s.server.sessions[j].token != next
    ensures var steps := [Send, Response(0, true), ServerAnswers(proof, now, next), AnswerArrives(false)];
            var n := Run(s, r, steps).browser;
            n == Browser(Some(next), true, [AppRequest(InFlight, true, 2)], Idle, 1)
  {
    InTimeIsRotated(s, r, now, proof, next);
    var s1 := Apply(s, r, Send);
    assert s1.browser.requests == [AppRequest(InFlight, false, 1)];
    var s2 := Apply(s1, r, Response(0, true));
    assert s2.browser.requests == [AppRequest(Waiting, true, 1)];
    assert s2.browser.refreshing == Asking(s.browser.stored.value, Interceptor);
    var s3 := Apply(s2, r, ServerAnswers(proof, now, next));
    assert s3.browser.refreshing.reply == Some(Tokens(|s.server.sessions|, next));
    TokensResend(s3, r);
    assert s3.browser.requests == s2.browser.requests && s3.browser.asks == 1;
    RunFour(s, r, Send, Response(0, true), ServerAnswers(proof, now, next), AnswerArrives(false));
  }
}
