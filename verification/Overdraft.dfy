/**
 The balance check reads the sender without a lock, so it can be stale by the time the debit is
 written. How far an account can be overdrawn, and exactly when it cannot be.
 */
module Overdraft {
  import opened Wrappers
  import opened Ledger
  import opened Interleaving
  import Accounts
  import SerialRuns
  import Transfers

  // The call has read a balance of `a` that covers its amount, and has neither committed nor failed.
  predicate Covering(c: Call, a: nat) {
    c.req.senderId == a &&
    match c.phase
    case SenderRead(seen) => seen >= c.req.amount
    case Checked(_) => true
    case Reserved(_) => true
    case SenderWritten(_) => true
    case BothWritten(_) => true
    case Posted(_) => true
    case Marked(_) => true
    case _ => false
  }

  function Claim(c: Call, a: nat): int {
    if Covering(c, a) then c.req.amount else 0
  }

  function Unit(c: Call, a: nat): int {
    if Covering(c, a) then 1 else 0
  }

  // What the transfers in flight from `a` will still take, and how many they are.
  function Exposure(calls: seq<Call>, a: nat): int {
    Sum((c: Call) => Claim(c, a), calls)
  }

  function Overlap(calls: seq<Call>, a: nat): int {
    Sum((c: Call) => Unit(c, a), calls)
  }

  lemma ChangeCall(calls: seq<Call>, t: nat, c: Call, a: nat)
    requires t < |calls|
    ensures Exposure(calls[t := c], a) == Exposure(calls, a) - Claim(calls[t], a) + Claim(c, a)
    ensures Overlap(calls[t := c], a) == Overlap(calls, a) - Unit(calls[t], a) + Unit(c, a)
  {
    SumUpdate((c: Call) => Claim(c, a), calls, t, c);
    SumUpdate((c: Call) => Unit(c, a), calls, t, c);
  }

  lemma AddCall(calls: seq<Call>, c: Call, a: nat)
    ensures Exposure(calls + [c], a) == Exposure(calls, a) + Claim(c, a)
    ensures Overlap(calls + [c], a) == Overlap(calls, a) + Unit(c, a)
  {
    SumAppend((c: Call) => Claim(c, a), calls, c);
    SumAppend((c: Call) => Unit(c, a), calls, c);
  }

  lemma {:induction false} OverlapBounds(calls: seq<Call>, a: nat, m: nat)
    requires forall i :: 0 <= i < |calls| && calls[i].req.senderId == a ==> calls[i].req.amount <= m
    ensures Exposure(calls, a) <= Overlap(calls, a) * m
    ensures 0 <= Overlap(calls, a) <= |calls|
  {
    if calls != [] {
      OverlapBounds(calls[1..], a, m);
      assert calls == [calls[0]] + calls[1..];
      assert Exposure(calls, a) == Claim(calls[0], a) + Exposure(calls[1..], a);
      assert Overlap(calls, a) == Unit(calls[0], a) + Overlap(calls[1..], a);
      assert (Overlap(calls[1..], a) + 1) * m == Overlap(calls[1..], a) * m + m;
    }
  }

  // The committed balance of `a`; an account that does not exist yet holds nothing.
  function Held(s: State, a: nat): int {
    if a < |s.db.accounts| then s.db.accounts[a].balance else 0
  }

  // What would be left if every transfer in flight committed stays above -(k - 1) * m.
  ghost predicate Margin(s: State, a: nat, k: nat, m: nat) {
    Held(s, a) - Exposure(s.calls, a) >= -((k - 1) * m)
  }

  // Every transfer from `a` is for at most `m`.
  ghost predicate AmountsWithin(s: State, a: nat, m: nat) {
    forall t :: 0 <= t < |s.calls| && s.calls[t].req.senderId == a ==> s.calls[t].req.amount <= m
  }

  lemma QuietAdvance(opening: seq<int>, s: State, t: nat, a: nat)
    requires Inv(opening, s) && t < |s.calls| && !s.calls[t].phase.Marked? && !s.calls[t].phase.Begun?
    ensures Claim(AdvanceCall(s, t).calls[t], a) <= Claim(s.calls[t], a)
  {
    assert CallOk(s, t);
  }

  lemma CommitClaims(opening: seq<int>, s: State, t: nat, a: nat)
    requires Inv(opening, s) && t < |s.calls| && s.calls[t].phase.Marked?
    ensures var n := AdvanceCall(s, t);
            Held(n, a) - Claim(n.calls[t], a) >= Held(s, a) - Claim(s.calls[t], a)
  {
    var n, saved := AdvanceCall(s, t), s.calls[t].phase.saved;
    CommitEffect(opening, s, t);
    NetPosting(saved, a);
    MarkedCall(opening, s, t);
    assert saved.senderId == s.calls[t].req.senderId && saved.amount == s.calls[t].req.amount by {
      assert CallOk(s, t);
    }
    assert Held(n, a) == Held(s, a) + if a < |s.db.accounts| then Net(Posting(saved), a) else 0;
  }

  lemma AtMost(x: int, y: int, m: nat)
    requires x <= y
    ensures x * m <= y * m
  {}

  // A covering read leaves room for all the other transfers in flight.
  lemma ReadClaims(opening: seq<int>, s: State, t: nat, a: nat, k: nat, m: nat)
    requires Inv(opening, s) && Margin(s, a, k, m) && t < |s.calls| && s.calls[t].phase.Begun?
    requires AmountsWithin(s, a, m) && Overlap(AdvanceCall(s, t).calls, a) <= k
    ensures Margin(AdvanceCall(s, t), a, k, m)
  {
    var n := AdvanceCall(s, t);
    ChangeCall(s.calls, t, n.calls[t], a);
    assert Claim(s.calls[t], a) == 0 && Held(n, a) == Held(s, a);
    if Covering(n.calls[t], a) {
      OverlapBounds(s.calls, a, m);
      AtMost(Overlap(s.calls, a), k - 1, m);
      assert Held(s, a) >= Claim(n.calls[t], a);
    }
  }

  lemma StepKeepsMargin(opening: seq<int>, s: State, step: Step, a: nat, k: nat, m: nat)
    requires Inv(opening, s) && Margin(s, a, k, m)
    requires AmountsWithin(s, a, m) && Overlap(Apply(s, step).calls, a) <= k
    ensures Margin(Apply(s, step), a, k, m)
  {
    var n := Apply(s, step);
    match step {
      case Arrive(req) =>
        AddCall(s.calls, Call(req, Arrived, NO_WRITES), a);
      case AccountStep(q) =>
        AccountRequestMoney(s, q);
        if a < |s.db.accounts| {
          assert n.db.accounts[..|s.db.accounts|][a] == n.db.accounts[a];
        }
      case Abort(t, error) =>
        if t < |s.calls| {
          assert CallOk(s, t);
          ChangeCall(s.calls, t, n.calls[t], a);
          assert n.calls == s.calls[t := n.calls[t]];
        }
      case Advance(t) =>
        if t < |s.calls| {
          ChangeCall(s.calls, t, n.calls[t], a);
          if s.calls[t].phase.Begun? {
            ReadClaims(opening, s, t, a, k, m);
          } else if s.calls[t].phase.Marked? {
            CommitClaims(opening, s, t, a);
          } else {
            QuietAdvance(opening, s, t, a);
            OnlyCommitChangesTables(s, t, Internal);
          }
        }
    }
  }

  // At every moment of the run at most `k` transfers from `a` are in flight past a covering read.
  ghost predicate OverlapWithin(s: State, steps: seq<Step>, a: nat, k: nat)
    decreases steps
  {
    Overlap(s.calls, a) <= k && (steps != [] ==> OverlapWithin(Apply(s, steps[0]), steps[1..], a, k))
  }

  // Every transfer from `a` that arrives in the run is for at most `m`.
  ghost predicate ArrivalsWithin(steps: seq<Step>, a: nat, m: nat) {
    forall i :: 0 <= i < |steps| && steps[i].Arrive? && steps[i].req.senderId == a ==> steps[i].req.amount <= m
  }

  lemma StepAmounts(s: State, step: Step, a: nat, m: nat)
    requires AmountsWithin(s, a, m) && (step.Arrive? && step.req.senderId == a ==> step.req.amount <= m)
    ensures AmountsWithin(Apply(s, step), a, m)
  {
    if step.Advance? && step.t < |s.calls| {
      assert OnlyCall(s, Apply(s, step), step.t);
    }
  }

  lemma {:induction false} RunKeepsMargin(opening: seq<int>, s: State, steps: seq<Step>, a: nat, k: nat, m: nat)
    requires Inv(opening, s) && Margin(s, a, k, m) && AmountsWithin(s, a, m)
    requires OverlapWithin(s, steps, a, k) && ArrivalsWithin(steps, a, m)
    ensures Margin(Run(s, steps), a, k, m) && Exposure(Run(s, steps).calls, a) >= 0
    decreases steps
  {
    if steps == [] {
      ExposureNonNegative(opening, s, a);
    } else {
      var n := Apply(s, steps[0]);
      StepKeepsInv(opening, s, steps[0]);
      StepAmounts(s, steps[0], a, m);
      assert Overlap(n.calls, a) <= k;
      StepKeepsMargin(opening, s, steps[0], a, k, m);
      RunKeepsMargin(opening, n, steps[1..], a, k, m);
    }
  }

  lemma ExposureNonNegative(opening: seq<int>, s: State, a: nat)
    requires Inv(opening, s)
    ensures Exposure(s.calls, a) >= 0
  {
    forall c | c in s.calls
      ensures Claim(c, a) >= 0
    {
      var t :| 0 <= t < |s.calls| && s.calls[t] == c;
      assert CallOk(s, t);
    }
    SumNonNegative((c: Call) => Claim(c, a), s.calls);
  }

  /**
   The overdraft bound: from non-negative opening balances, if at most `k` transfers from `a` are
   ever in flight past a read that covers their amount, each for at most `m`, then the committed
   balance of `a` never falls below -(k - 1) * m.
   */
  lemma {:induction false} OverdraftBound(opening: seq<int>, s: State, steps: seq<Step>, a: nat, k: nat, m: nat)
    requires Initial(opening, s) && (forall i :: 0 <= i < |opening| ==> opening[i] >= 0)
    requires k >= 1 && OverlapWithin(s, steps, a, k) && ArrivalsWithin(steps, a, m)
    ensures Held(Run(s, steps), a) >= -((k - 1) * m)
  {
    assert Inv(opening, s);
    assert Exposure(s.calls, a) == 0;
    RunKeepsMargin(opening, s, steps, a, k, m);
  }

  /** When overlap is harmless: exactly when there is none */

  // With at most `k` overlapping transfers per account, no balance ever goes below zero.
  ghost predicate NeverOverdrawn(k: nat) {
    forall opening: seq<int>, s: State, steps: seq<Step>, a: nat ::
      Initial(opening, s) && (forall i :: 0 <= i < |opening| ==> opening[i] >= 0) && OverlapWithin(s, steps, a, k) ==>
        Held(Run(s, steps), a) >= 0
  }

  function LargestArrival(steps: seq<Step>): (m: nat)
    ensures forall i :: 0 <= i < |steps| && steps[i].Arrive? ==> steps[i].req.amount <= m
  {
    if steps == [] then 0
    else
      var m := LargestArrival(steps[1..]);
      if steps[0].Arrive? && steps[0].req.amount > m then steps[0].req.amount else m
  }

  lemma {:induction false} OverlapWeaken(s: State, steps: seq<Step>, a: nat, j: nat, k: nat)
    requires j <= k && OverlapWithin(s, steps, a, j)
    ensures OverlapWithin(s, steps, a, k)
    decreases steps
  {
    if steps != [] {
      OverlapWeaken(Apply(s, steps[0]), steps[1..], a, j, k);
    }
  }

  lemma NoOverlapNoOverdraft(k: nat)
    requires k <= 1
    ensures NeverOverdrawn(k)
  {
    forall opening: seq<int>, s: State, steps: seq<Step>, a: nat |
      Initial(opening, s) && (forall i :: 0 <= i < |opening| ==> opening[i] >= 0) && OverlapWithin(s, steps, a, k)
      ensures Held(Run(s, steps), a) >= 0
    {
      OverlapWeaken(s, steps, a, k, 1);
      OverdraftBound(opening, s, steps, a, 1, LargestArrival(steps));
    }
  }

  /** The bound is reached: `k` calls of one user that all check before any of them debits */

  function Shop(m: nat): State {
    State(Database([Account(0, "1000000000", "buyer", true, VND, m), Account(1, "2000000000", "shop", true, VND, 0)],
                   [], []), [], map[], 0)
  }

  function Spend(m: nat, i: nat): Request {
    Request(0, Accounts.Decimal(i), 0, "2000000000", m, VND, "", 0)
  }

  ghost predicate AllChecked(s: State, m: nat, i: nat) {
    && s.db == Shop(m).db && s.locks == map[] && |s.calls| == i
    && forall j :: 0 <= j < i ==> s.calls[j] == Call(Spend(m, j), Checked(1), NO_WRITES)
  }

  function Arrivals(steps: seq<Step>): nat {
    if steps == [] then 0 else (if steps[0].Arrive? then 1 else 0) + Arrivals(steps[1..])
  }

  lemma {:induction false} ArrivalsConcat(a: seq<Step>, b: seq<Step>)
    ensures Arrivals(a + b) == Arrivals(a) + Arrivals(b)
  {
    if a == [] {
      assert a + b == b;
    } else {
      assert (a + b)[1..] == a[1..] + b;
      ArrivalsConcat(a[1..], b);
    }
  }

  lemma {:induction false} NoArrivals(t: nat, n: nat)
    ensures Arrivals(SerialRuns.Turns(t, n)) == 0
  {
    if n > 0 {
      assert SerialRuns.Turns(t, n)[1..] == SerialRuns.Turns(t, n - 1);
      NoArrivals(t, n - 1);
    }
  }

  lemma {:induction false} RunConcat(s: State, a: seq<Step>, b: seq<Step>)
    ensures Run(s, a + b) == Run(Run(s, a), b)
    decreases a
  {
    if a == [] {
      assert a + b == b;
    } else {
      assert (a + b)[1..] == a[1..] + b;
      RunConcat(Apply(s, a[0]), a[1..], b);
    }
  }

  // There are never more transfers in flight than calls that have arrived.
  lemma {:induction false} OverlapByArrivals(s: State, steps: seq<Step>, a: nat, k: nat)
    requires |s.calls| + Arrivals(steps) <= k
    ensures OverlapWithin(s, steps, a, k)
    decreases steps
  {
    OverlapBounds(s.calls, a, LargestAmount(s.calls));
    if steps != [] {
      if steps[0].Advance? && steps[0].t < |s.calls| {
        assert OnlyCall(s, Apply(s, steps[0]), steps[0].t);
      }
      OverlapByArrivals(Apply(s, steps[0]), steps[1..], a, k);
    }
  }

  function LargestAmount(calls: seq<Call>): (m: nat)
    ensures forall i :: 0 <= i < |calls| ==> calls[i].req.amount <= m
  {
    if calls == [] then 0
    else
      var m := LargestAmount(calls[1..]);
      if calls[0].req.amount > m then calls[0].req.amount else m
  }

  lemma OneMoreChecks(s: State, m: nat, i: nat) returns (steps: seq<Step>)
    requires m >= MIN_AMOUNT && AllChecked(s, m, i)
    ensures AllChecked(Run(s, steps), m, i + 1) && Arrivals(steps) == 1
  {
    var req := Spend(m, i);
    var a := Apply(s, Arrive(req));
    assert Accounts.Decimal(i) != "";
    assert a.calls[i] == Call(req, Arrived, NO_WRITES);
    assert AccountByNumber(a.db.accounts[..1], req.receiverNumber).None?;
    assert Transfers.Checks(a.db, req) == Ok(1);
    var trail := SerialRuns.ChecksPass(a, i);
    SerialRuns.TrailIsRun(trail, i, 3);
    steps := [Arrive(req)] + SerialRuns.Turns(i, 3);
    assert steps[1..] == SerialRuns.Turns(i, 3);
    NoArrivals(i, 3);
  }

  lemma {:induction false} AllCheck(m: nat, i: nat) returns (steps: seq<Step>)
    requires m >= MIN_AMOUNT
    ensures AllChecked(Run(Shop(m), steps), m, i) && Arrivals(steps) == i
  {
    if i == 0 {
      steps := [];
    } else {
      var before := AllCheck(m, i - 1);
      var more := OneMoreChecks(Run(Shop(m), before), m, i - 1);
      steps := before + more;
      RunConcat(Shop(m), before, more);
      ArrivalsConcat(before, more);
    }
  }

  // The first `i` of `k` calls have committed; the others still stand behind their check.
  ghost predicate SomeSpent(s: State, m: nat, k: nat, i: nat) {
    && |s.calls| == k && s.locks == map[] && |s.db.accounts| == 2
    && s.db.accounts[0].balance == m - i * m
    && (forall j :: 0 <= j < k ==> s.calls[j].writes == NO_WRITES)
    && (forall j :: i <= j < k ==> s.calls[j] == Call(Spend(m, j), Checked(1), NO_WRITES))
    && (forall row :: row in s.db.rows ==> exists j: nat :: j < i && row.key == Accounts.Decimal(j))
  }

  lemma KeyUnspent(s: State, m: nat, k: nat, i: nat)
    requires SomeSpent(s, m, k, i)
    ensures RowByKey(s.db.rows, Accounts.Decimal(i)).None?
  {
    forall row | row in s.db.rows
      ensures row.key != Accounts.Decimal(i)
    {
      var j: nat :| j < i && row.key == Accounts.Decimal(j);
      Accounts.ParseInvertsDecimal(i);
      Accounts.ParseInvertsDecimal(j);
    }
  }

  lemma AfterSpending(s: State, n: State, m: nat, k: nat, i: nat)
    requires SomeSpent(s, m, k, i) && i < k
    requires |n.calls| == |s.calls|
    requires n.calls == s.calls[i := s.calls[i].(phase := n.calls[i].phase, writes := NO_WRITES)]
    requires n.db == Transfers.Moved(s.db, Spend(m, i), s.nextId, 1) && n.locks == map[]
    ensures SomeSpent(n, m, k, i + 1)
  {
    assert m - i * m - m == m - (i + 1) * m;
    forall row | row in n.db.rows
      ensures exists j: nat :: j < i + 1 && row.key == Accounts.Decimal(j)
    {
      if row in s.db.rows {
        var j: nat :| j < i && row.key == Accounts.Decimal(j);
      }
    }
  }

  lemma OneMoreSpends(s: State, m: nat, k: nat, i: nat) returns (steps: seq<Step>)
    requires SomeSpent(s, m, k, i) && i < k
    ensures SomeSpent(Run(s, steps), m, k, i + 1) && Arrivals(steps) == 0
  {
    KeyUnspent(s, m, k, i);
    var trail := SerialRuns.WritingTurns(s, i, 1);
    SerialRuns.TrailIsRun(trail, i, 6);
    NoArrivals(i, 6);
    steps := SerialRuns.Turns(i, 6);
    assert trail[6].locks == map[];
    AfterSpending(s, trail[6], m, k, i);
  }

  lemma {:induction false} AllSpend(s: State, m: nat, k: nat, i: nat) returns (steps: seq<Step>)
    requires SomeSpent(s, m, k, i) && i <= k
    ensures SomeSpent(Run(s, steps), m, k, k) && Arrivals(steps) == 0
    decreases k - i
  {
    if i == k {
      steps := [];
    } else {
      var first := OneMoreSpends(s, m, k, i);
      var rest := AllSpend(Run(s, first), m, k, i + 1);
      steps := first + rest;
      RunConcat(s, first, rest);
      ArrivalsConcat(first, rest);
    }
  }

  /** For every `k` and every admissible amount `m` some run with overlap `k` ends at exactly -(k - 1) * m. */
  lemma BoundIsReached(k: nat, m: nat) returns (opening: seq<int>, steps: seq<Step>)
    requires k >= 1 && m >= MIN_AMOUNT
    ensures Initial(opening, Shop(m)) && forall i :: 0 <= i < |opening| ==> opening[i] >= 0
    ensures OverlapWithin(Shop(m), steps, 0, k)
    ensures Held(Run(Shop(m), steps), 0) == -((k - 1) * m)
  {
    opening := [m, 0];
    var checks := AllCheck(m, k);
    var s := Run(Shop(m), checks);
    assert SomeSpent(s, m, k, 0);
    var spends := AllSpend(s, m, k, 0);
    steps := checks + spends;
    RunConcat(Shop(m), checks, spends);
    ArrivalsConcat(checks, spends);
    OverlapByArrivals(Shop(m), steps, 0, k);
    assert m - k * m == -((k - 1) * m);
  }

  /** Balances stay non-negative on all runs with overlap at most `k` if and only if `k` is at most 1. */
  lemma NeverOverdrawnIffNoOverlap(k: nat)
    ensures NeverOverdrawn(k) <==> k <= 1
  {
    if k <= 1 {
      NoOverlapNoOverdraft(k);
    } else {
      var opening, steps := BoundIsReached(k, MIN_AMOUNT);
      assert (k - 1) * MIN_AMOUNT > 0;
      assert Held(Run(Shop(MIN_AMOUNT), steps), 0) < 0;
    }
  }
}
