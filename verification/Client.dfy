/**
 The browser's side of refreshing: one shared refresh at a time, a retry flag per request, and the
 token kept in local storage.
 */
module Client {
  import opened Wrappers
  import opened Sessions

  /** The browser */

  datatype Phase = InFlight | Waiting | Settled

  // An application request: its phase, its `_retry` flag, how often it has been sent.
  datatype AppRequest = AppRequest(phase: Phase, retry: bool, sends: nat)

  // Who started a refresh: the response interceptor, or the start-up of the page.
  datatype Starter = Interceptor | StartUp

  // The shared refresh: none, its request on the way to the server, its answer on the way back (None:
  // a network failure), or the logout call that follows a failed refresh.
  datatype Refreshing =
    | Idle
    | Asking(token: nat, starter: Starter)
    | Answered(token: nat, starter: Starter, reply: Option<Reply>)
    | LoggingOut

  // `stored` is the refresh token in local storage, `access` whether an access token is in memory,
  // `asks` how many refreshes the interceptor has started.
  datatype Browser = Browser(stored: Option<nat>, access: bool, requests: seq<AppRequest>,
                             refreshing: Refreshing, asks: nat)

  // The page shows nothing, so sends nothing, until the start-up refresh has settled.
  predicate StartingUp(b: Browser) {
    (b.refreshing.Asking? || b.refreshing.Answered?) && b.refreshing.starter == StartUp
  }

  function OnSend(b: Browser): Browser {
    if StartingUp(b) then b else b.(requests := b.requests + [AppRequest(InFlight, false, 1)])
  }

  // The response interceptor, for request `i`; `unauthorized` is a 401.
  function OnResponse(b: Browser, i: nat, unauthorized: bool): Browser {
    if i >= |b.requests| || !b.requests[i].phase.InFlight? then b
    else if unauthorized && !b.requests[i].retry then
      var flagged := b.requests[i].(retry := true);
      if b.stored.None? then b.(requests := b.requests[i := flagged.(phase := Settled)])
      else
        var waiting := b.(requests := b.requests[i := flagged.(phase := Waiting)]);
        if b.refreshing.Idle?
        then waiting.(refreshing := Asking(b.stored.value, Interceptor), asks := b.asks + 1)
        else waiting
    else b.(requests := b.requests[i := b.requests[i].(phase := Settled)])
  }

  function Resent(r: AppRequest): AppRequest {
    if r.phase.Waiting? then r.(phase := InFlight, sends := r.sends + 1) else r
  }

  function Rejected(r: AppRequest): AppRequest {
    if r.phase.Waiting? then r.(phase := Settled) else r
  }

  function Map(f: AppRequest -> AppRequest, requests: seq<AppRequest>): seq<AppRequest> {
    seq(|requests|, i requires 0 <= i < |requests| => f(requests[i]))
  }

  // The answer to the refresh arrives, or is lost.
  function OnRefreshAnswer(b: Browser, lost: bool): Browser
    requires b.refreshing.Answered?
  {
    var reply := b.refreshing.reply;
    if !lost && reply.Some? && reply.value.Tokens? then
      b.(stored := Some(reply.value.token), access := true, refreshing := Idle, requests := Map(Resent, b.requests))
    else
      b.(stored := None, access := false,
         refreshing := if b.refreshing.starter == Interceptor then LoggingOut else Idle)
  }

  function OnLogoutSettled(b: Browser): Browser {
    b.(refreshing := Idle, requests := Map(Rejected, b.requests))
  }

  function Abandoned(r: AppRequest): AppRequest {
    r.(phase := Settled)
  }

  // The page is loaded anew: memory is lost, local storage stays.
  function OnReload(b: Browser): Browser {
    Browser(b.stored, false, Map(Abandoned, b.requests),
            if b.stored.Some? then Asking(b.stored.value, StartUp) else Idle, b.asks)
  }

  /** The interceptor and the reducers, updating the page's variables in place */
  class Page {
    var stored: Option<nat>
    var access: bool
    var requests: seq<AppRequest>
    var refreshing: Refreshing
    var asks: nat

    constructor (b: Browser)
      ensures State() == b
    {
      stored, access, requests, refreshing, asks := b.stored, b.access, b.requests, b.refreshing, b.asks;
    }

    function State(): Browser
      reads this
    {
      Browser(stored, access, requests, refreshing, asks)
    }

    method HandleResponse(i: nat, unauthorized: bool)
      requires i < |requests| && requests[i].phase.InFlight?
      modifies this
      ensures State() == OnResponse(old(State()), i, unauthorized)
    {
      if unauthorized && !requests[i].retry {
        requests := requests[i := requests[i].(retry := true)];
        var refreshToken := stored;
        if refreshToken.None? {
          requests := requests[i := requests[i].(phase := Settled)];
          return;
        }
        if refreshing.Idle? {
          refreshing := Asking(refreshToken.value, Interceptor);
          asks := asks + 1;
        }
        requests := requests[i := requests[i].(phase := Waiting)];
        return;
      }
      requests := requests[i := requests[i].(phase := Settled)];
    }

    // Every request that waits goes on: it is sent again, or rejected.
    method ReleaseWaiting(resend: bool)
      modifies this`requests
      ensures requests == Map(if resend then Resent else Rejected, old(requests))
    {
      var i := 0;
      while i < |requests|
        invariant 0 <= i <= |requests| == |old(requests)|
        invariant forall k :: 0 <= k < i ==>
                    requests[k] == if resend then Resent(old(requests)[k]) else Rejected(old(requests)[k])
        invariant forall k :: i <= k < |requests| ==> requests[k] == old(requests)[k]
      {
        if requests[i].phase.Waiting? {
          var r := requests[i];
          r := if resend then r.(phase := InFlight, sends := r.sends + 1) else r.(phase := Settled);
          requests := requests[i := r];
        }
        i := i + 1;
      }
    }

    method HandleRefreshAnswer(lost: bool)
      requires refreshing.Answered?
      modifies this
      ensures State() == OnRefreshAnswer(old(State()), lost)
    {
      var reply, starter := refreshing.reply, refreshing.starter;
      if !lost && reply.Some? && reply.value.Tokens? {
        stored := Some(reply.value.token);
        access := true;
        refreshing := Idle;
        ReleaseWaiting(true);
      } else {
        stored := None;
        access := false;
        refreshing := if starter == Interceptor then LoggingOut else Idle;
      }
    }

    method HandleLogoutSettled()
      modifies this
      ensures State() == OnLogoutSettled(old(State()))
    {
      refreshing := Idle;
      ReleaseWaiting(false);
    }
  }
}
