/**
 The interleaved system and the serial one agree: a call that runs with nothing else open does,
 statement by statement, exactly what the serial description says in one go.
 */
module SerialRuns {
  import opened Wrappers
  import opened Ledger
  import opened Interleaving
  import Transfers

  // `n` turns of call `t`.
  function Turns(t: nat, n: nat): seq<Step> {
    seq(n, i => Advance(t))
  }

  // Each state of the trail is one statement of call `t` after the one before.
  ghost predicate IsTrail(trail: seq<State>, t: nat) {
    && |trail| > 0
    && (forall i :: 0 <= i < |trail| ==> t < |trail[i].calls|)
    && (forall i :: 0 < i < |trail| ==> trail[i] == AdvanceCall(trail[i - 1], t))
  }

  function Outcome(p: Phase): Option<Result<Transaction>> {
    match p
    case Returned(row) => Some(Ok(row))
    case Failed(error) => Some(Err(error))
    case _ => None
  }

  lemma TrailTail(trail: seq<State>, t: nat)
    requires IsTrail(trail, t) && |trail| > 1
    ensures IsTrail(trail[1..], t) && trail[1] == AdvanceCall(trail[0], t)
  {}

  lemma {:induction false} TrailIsRun(trail: seq<State>, t: nat, n: nat)
    requires IsTrail(trail, t)
    requires n == |trail| - 1 || (n > |trail| - 1 && Outcome(trail[|trail| - 1].calls[t].phase).Some?)
    ensures Run(trail[0], Turns(t, n)) == trail[|trail| - 1]
    decreases n
  {
    if n > 0 {
      assert Turns(t, n)[1..] == Turns(t, n - 1);
      if |trail| > 1 {
        TrailTail(trail, t);
        TrailIsRun(trail[1..], t, n - 1);
      } else {
        TrailIsRun(trail, t, n - 1);
      }
    }
  }

  // Call `t` with these locals and private writes.
  function With(s: State, t: nat, phase: Phase, writes: Writes): State
    requires t < |s.calls|
  {
    Put(s, t, s.calls[t].(phase := phase, writes := writes))
  }

  lemma ChecksPass(s: State, t: nat) returns (trail: seq<State>)
    requires t < |s.calls| && s.calls[t].phase.Arrived? && RowByKey(s.db.rows, s.calls[t].req.key).None?
    requires Transfers.Checks(s.db, s.calls[t].req).Ok?
    ensures IsTrail(trail, t) && |trail| == 4 && trail[0] == s
    ensures trail[3] == Goto(s, t, Checked(Transfers.Checks(s.db, s.calls[t].req).value))
  {
    var s1 := AdvanceCall(s, t);
    var s2 := AdvanceCall(s1, t);
    trail := [s, s1, s2, AdvanceCall(s2, t)];
  }

  lemma ChecksFail(s: State, t: nat) returns (trail: seq<State>)
    requires t < |s.calls| && s.calls[t].phase.Arrived? && RowByKey(s.db.rows, s.calls[t].req.key).None?
    requires Transfers.Checks(s.db, s.calls[t].req).Err?
    ensures IsTrail(trail, t) && |trail| <= 4 && trail[0] == s
    ensures var n := trail[|trail| - 1];
            n.db == s.db && n.calls[t].phase == Failed(Transfers.Checks(s.db, s.calls[t].req).error)
  {
    var s1 := AdvanceCall(s, t);
    var s2 := AdvanceCall(s1, t);
    trail := [s, s1, s2, AdvanceCall(s2, t)];
  }

  // No other call holds the lock on account `a`.
  predicate Unlocked(s: State, t: nat, a: nat) {
    a < |s.db.accounts| && (a in s.locks ==> s.locks[a] == t)
  }

  lemma BalanceTurns(s: State, t: nat, saved: Transaction) returns (trail: seq<State>)
    requires t < |s.calls| && s.calls[t].phase == Reserved(saved) && s.calls[t].writes == Writes(map[], [saved], [])
    requires saved.senderId == s.calls[t].req.senderId != saved.receiverId && saved.amount == s.calls[t].req.amount
    requires Unlocked(s, t, saved.senderId) && Unlocked(s, t, saved.receiverId)
    ensures IsTrail(trail, t) && |trail| == 3 && trail[0] == s
    ensures trail[2] ==
            With(s, t, BothWritten(saved),
                 Writes(map[saved.senderId := s.db.accounts[saved.senderId].balance - saved.amount,
                            saved.receiverId := s.db.accounts[saved.receiverId].balance + saved.amount], [saved], []))
            .(locks := s.locks[saved.senderId := t][saved.receiverId := t])
  {
    var s1 := AdvanceCall(s, t);
    assert s1.calls[t].phase == SenderWritten(saved);
    trail := [s, s1, AdvanceCall(s1, t)];
  }

  lemma PostingTurns(s: State, t: nat, saved: Transaction, balances: map<nat, int>)
    requires t < |s.calls| && s.calls[t].phase == BothWritten(saved)
    requires s.calls[t].writes == Writes(balances, [saved], [])
    requires saved.senderId == s.calls[t].req.senderId && saved.amount == s.calls[t].req.amount
    ensures AdvanceCall(s, t) == With(s, t, Posted(saved), Writes(balances, [saved], Posting(saved)))
    ensures AdvanceCall(AdvanceCall(s, t), t) ==
            With(s, t, Marked(saved.(status := SUCCESS)),
                 Writes(balances, [saved.(status := SUCCESS)], Posting(saved)))
  {
    var s1 := AdvanceCall(s, t);
    assert s1.calls[t].writes.entries == Posting(saved);
    var s2 := AdvanceCall(s1, t);
    assert s2.calls[t].writes.rows == [saved.(status := SUCCESS)];
  }

  lemma RecordingTurns(s: State, t: nat, saved: Transaction, balances: map<nat, int>) returns (trail: seq<State>)
    requires t < |s.calls| && s.calls[t].phase == BothWritten(saved)
    requires s.calls[t].writes == Writes(balances, [saved], [])
    requires saved.senderId == s.calls[t].req.senderId && saved.amount == s.calls[t].req.amount
    ensures IsTrail(trail, t) && |trail| == 4 && trail[0] == s
    ensures var marked := saved.(status := SUCCESS);
            trail[3] ==
            With(s, t, Committed(marked), NO_WRITES)
            .(db := Database(WithBalances(s.db.accounts, balances), s.db.rows + [marked],
                             s.db.entries + Posting(marked)),
              locks := Release(s.locks, t))
  {
    PostingTurns(s, t, saved, balances);
    var s1 := AdvanceCall(s, t);
    var s2 := AdvanceCall(s1, t);
    trail := [s, s1, s2, AdvanceCall(s2, t)];
  }

  lemma JoinTrails(a: seq<State>, b: seq<State>, t: nat) returns (trail: seq<State>)
    requires IsTrail(a, t) && IsTrail(b, t) && a[|a| - 1] == b[0]
    ensures IsTrail(trail, t) && |trail| == |a| + |b| - 1 && trail[0] == a[0] && trail[|trail| - 1] == b[|b| - 1]
  {
    trail := a + b[1..];
  }

  lemma ReserveTurn(s: State, t: nat, receiver: nat)
    requires t < |s.calls| && s.calls[t].phase == Checked(receiver) && s.calls[t].writes == NO_WRITES
    requires !KeyReserved(s, t, s.calls[t].req.key) && RowByKey(s.db.rows, s.calls[t].req.key).None?
    ensures var saved := PendingRow(s.calls[t].req, s.nextId, receiver);
            AdvanceCall(s, t) == With(s, t, Reserved(saved), Writes(map[], [saved], [])).(nextId := s.nextId + 1)
  {
    var saved := PendingRow(s.calls[t].req, s.nextId, receiver);
    assert s.calls[t].writes.rows + [saved] == [saved];
  }

  lemma BalancesMoved(accounts: seq<Account>, b: nat, c: nat, amount: int)
    requires b < |accounts| && c < |accounts| && b != c
    ensures WithBalances(accounts, map[b := accounts[b].balance - amount, c := accounts[c].balance + amount]) ==
            Transfers.Credit(Transfers.Credit(accounts, b, -amount), c, amount)
  {}

  // From a reserved key to the commit.
  lemma ReservedTurns(s: State, t: nat, saved: Transaction) returns (trail: seq<State>)
    requires t < |s.calls| && s.calls[t].phase == Reserved(saved) && s.calls[t].writes == Writes(map[], [saved], [])
    requires saved.senderId == s.calls[t].req.senderId != saved.receiverId && saved.amount == s.calls[t].req.amount
    requires Unlocked(s, t, saved.senderId) && Unlocked(s, t, saved.receiverId)
    ensures IsTrail(trail, t) && |trail| == 6 && trail[0] == s
    ensures var n, row := trail[5], saved.(status := SUCCESS);
            && n.calls == s.calls[t := s.calls[t].(phase := Committed(row), writes := NO_WRITES)]
            && n.db.rows == s.db.rows + [row] && n.db.entries == s.db.entries + Posting(row)
            && n.db.accounts == Transfers.Credit(Transfers.Credit(s.db.accounts, saved.senderId, -saved.amount),
                                                 saved.receiverId, saved.amount)
            && n.nextId == s.nextId
            && n.locks == Release(s.locks[saved.senderId := t][saved.receiverId := t], t)
  {
    var b := BalanceTurns(s, t, saved);
    var c := RecordingTurns(b[2], t, saved, b[2].calls[t].writes.balances);
    BalancesMoved(s.db.accounts, saved.senderId, saved.receiverId, saved.amount);
    trail := JoinTrails(b, c, t);
  }

  // From passed checks to the commit, when nothing stands in the way.
  lemma WritingTurns(s: State, t: nat, receiver: nat) returns (trail: seq<State>)
    requires t < |s.calls| && s.calls[t].phase == Checked(receiver) && s.calls[t].writes == NO_WRITES
    requires !KeyReserved(s, t, s.calls[t].req.key) && RowByKey(s.db.rows, s.calls[t].req.key).None?
    requires Unlocked(s, t, s.calls[t].req.senderId) && Unlocked(s, t, receiver) && receiver != s.calls[t].req.senderId
    ensures IsTrail(trail, t) && |trail| == 7 && trail[0] == s
    ensures var n, row := trail[6], Transfers.Row(s.calls[t].req, s.nextId, receiver);
            && n.calls == s.calls[t := s.calls[t].(phase := Committed(row), writes := NO_WRITES)]
            && n.db == Transfers.Moved(s.db, s.calls[t].req, s.nextId, receiver)
            && n.nextId == s.nextId + 1
            && n.locks == Release(s.locks[row.senderId := t][receiver := t], t)
  {
    var saved := PendingRow(s.calls[t].req, s.nextId, receiver);
    ReserveTurn(s, t, receiver);
    var s1 := AdvanceCall(s, t);
    var rest := ReservedTurns(s1, t, saved);
    trail := JoinTrails([s, s1], rest, t);
  }

  // No call holds a lock or has private writes.
  ghost predicate Quiet(s: State) {
    s.locks == map[] && forall u :: 0 <= u < |s.calls| ==> s.calls[u].writes == NO_WRITES
  }

  // The statements after which an unhindered call has returned.
  const CALL_LENGTH := 10

  lemma ExistingRowTurns(opening: seq<int>, s: State, t: nat) returns (trail: seq<State>)
    requires Inv(opening, s) && t < |s.calls| && s.calls[t].phase.Arrived?
    requires RowByKey(s.db.rows, s.calls[t].req.key).Some?
    ensures IsTrail(trail, t) && |trail| == 2 && trail[0] == s
    ensures trail[1] == Goto(s, t, Returned(RowByKey(s.db.rows, s.calls[t].req.key).value))
    ensures RowByKey(s.db.rows, s.calls[t].req.key).value.status == SUCCESS
  {
    assert RowOk(RowByKey(s.db.rows, s.calls[t].req.key).value, s.db);
    trail := [s, AdvanceCall(s, t)];
  }

  lemma AcceptedTurns(s: State, t: nat) returns (trail: seq<State>)
    requires Quiet(s) && t < |s.calls| && s.calls[t].phase.Arrived?
    requires RowByKey(s.db.rows, s.calls[t].req.key).None? && Transfers.Checks(s.db, s.calls[t].req).Ok?
    ensures IsTrail(trail, t) && |trail| == CALL_LENGTH + 1 && trail[0] == s
    ensures var n, req := trail[CALL_LENGTH], s.calls[t].req;
            var receiver := Transfers.Checks(s.db, req).value;
            n.db == Transfers.Moved(s.db, req, s.nextId, receiver) &&
            n.calls[t].phase == Returned(Transfers.Row(req, s.nextId, receiver))
  {
    var receiver := Transfers.Checks(s.db, s.calls[t].req).value;
    var checks := ChecksPass(s, t);
    var c := checks[3];
    assert forall u :: 0 <= u < |s.calls| ==> c.calls[u].writes == NO_WRITES;
    var writes := WritingTurns(c, t, receiver);
    var committed := writes[6];
    var last := [committed, AdvanceCall(committed, t)];
    var front := JoinTrails(checks, writes, t);
    trail := JoinTrails(front, last, t);
  }

  // The turns of a call in a quiet state, up to its outcome.
  lemma AloneTurns(opening: seq<int>, s: State, t: nat) returns (trail: seq<State>)
    requires Inv(opening, s) && Quiet(s) && t < |s.calls| && s.calls[t].phase.Arrived?
    ensures IsTrail(trail, t) && |trail| <= CALL_LENGTH + 1 && trail[0] == s
    ensures var n := trail[|trail| - 1];
            (n.db, Outcome(n.calls[t].phase)) ==
            var (db, result) := Transfers.TransferAlone(s.db, s.nextId, s.calls[t].req); (db, Some(result))
  {
    var req := s.calls[t].req;
    if RowByKey(s.db.rows, req.key).Some? {
      trail := ExistingRowTurns(opening, s, t);
    } else if Transfers.Checks(s.db, req).Err? {
      trail := ChecksFail(s, t);
    } else {
      trail := AcceptedTurns(s, t);
    }
  }

  /**
   A call that arrives in a quiet reachable state and runs alone ends as the serial transfer does:
   same result, same tables.
   */
  lemma AloneIsSerial(opening: seq<int>, s: State, req: Request, n: nat)
    requires Inv(opening, s) && Quiet(s) && Admissible(req) && n >= CALL_LENGTH
    ensures var t := |s.calls|;
            var end := Run(s, [Arrive(req)] + Turns(t, n));
            var (db, result) := Transfers.TransferAlone(s.db, s.nextId, req);
            end.db == db && t < |end.calls| && Outcome(end.calls[t].phase) == Some(result)
  {
    var t := |s.calls|;
    var a := Apply(s, Arrive(req));
    StepKeepsInv(opening, s, Arrive(req));
    var trail := AloneTurns(opening, a, t);
    TrailIsRun(trail, t, n);
    assert ([Arrive(req)] + Turns(t, n))[1..] == Turns(t, n);
  }

  /** Nothing that is over stands in the way */

  // The call has locked its sender's row and has neither committed nor failed.
  predicate HoldsRows(p: Phase) {
    p.SenderWritten? || p.BothWritten? || p.Posted? || p.Marked?
  }

  // Every row lock belongs to a call in the middle of its writes.
  ghost predicate LocksHeld(s: State) {
    forall a :: a in s.locks ==> s.locks[a] < |s.calls| && HoldsRows(s.calls[s.locks[a]].phase)
  }

  lemma OwnLocksHeld(s: State, t: nat, a: nat)
    requires LocksHeld(s) && t < |s.calls|
    requires a in AdvanceCall(s, t).locks && AdvanceCall(s, t).locks[a] == t
    ensures HoldsRows(AdvanceCall(s, t).calls[t].phase)
  {
    if a in s.locks && s.locks[a] == t {
      assert HoldsRows(s.calls[t].phase);
    }
  }

  lemma OtherLocksStay(s: State, t: nat, a: nat)
    requires t < |s.calls| && a in AdvanceCall(s, t).locks && AdvanceCall(s, t).locks[a] != t
    ensures a in s.locks && AdvanceCall(s, t).locks[a] == s.locks[a]
  {}

  lemma AdvanceKeepsLocksHeld(s: State, t: nat)
    requires LocksHeld(s) && t < |s.calls|
    ensures LocksHeld(AdvanceCall(s, t))
  {
    var n := AdvanceCall(s, t);
    assert OnlyCall(s, n, t);
    forall a | a in n.locks
      ensures n.locks[a] < |n.calls| && HoldsRows(n.calls[n.locks[a]].phase)
    {
      if n.locks[a] == t {
        OwnLocksHeld(s, t, a);
      } else {
        OtherLocksStay(s, t, a);
      }
    }
  }

  lemma AbortKeepsLocksHeld(s: State, t: nat, error: Error)
    requires LocksHeld(s) && t < |s.calls|
    ensures LocksHeld(AbortCall(s, t, error))
  {
    var n := AbortCall(s, t, error);
    forall a | a in n.locks
      ensures n.locks[a] < |n.calls| && HoldsRows(n.calls[n.locks[a]].phase)
    {
      assert a in s.locks && n.locks[a] == s.locks[a];
      assert n.locks[a] != t || n == s;
    }
  }

  lemma StepKeepsLocksHeld(s: State, step: Step)
    requires LocksHeld(s)
    ensures LocksHeld(Apply(s, step))
  {
    match step {
      case Advance(t) =>
        if t < |s.calls| {
          AdvanceKeepsLocksHeld(s, t);
        }
      case Abort(t, error) =>
        if t < |s.calls| {
          AbortKeepsLocksHeld(s, t, error);
        }
      case _ =>
    }
  }

  lemma {:induction false} RunKeepsLocksHeld(s: State, steps: seq<Step>)
    requires LocksHeld(s)
    ensures LocksHeld(Run(s, steps))
    decreases steps
  {
    if steps != [] {
      StepKeepsLocksHeld(s, steps[0]);
      RunKeepsLocksHeld(Apply(s, steps[0]), steps[1..]);
    }
  }

  /** In every run from the start a row is locked only by a call that has written to it and is not over. */
  lemma LocksAreHeld(opening: seq<int>, s: State, steps: seq<Step>)
    requires Initial(opening, s)
    ensures var n := Run(s, steps);
            forall a :: a in n.locks ==>
              n.locks[a] < |n.calls| &&
              var p := n.calls[n.locks[a]].phase;
              p.SenderWritten? || p.BothWritten? || p.Posted? || p.Marked?
  {
    RunKeepsLocksHeld(s, steps);
  }

  lemma OverIsQuiet(opening: seq<int>, s: State)
    requires Inv(opening, s) && LocksHeld(s)
    requires forall u :: 0 <= u < |s.calls| ==> Over(s.calls[u].phase)
    ensures Quiet(s)
  {
    forall u | 0 <= u < |s.calls|
      ensures s.calls[u].writes == NO_WRITES
    {
      assert CallOk(s, u);
    }
    assert forall a :: a !in s.locks;
  }

  /**
   Whatever has happened before, committed, failed or been aborted at any statement: once all calls are over,
   the next call that arrives runs to its end and does exactly what the serial transfer does.
   */
  lemma NextCallIsSerial(opening: seq<int>, s: State, steps: seq<Step>, req: Request, n: nat)
    requires Initial(opening, s) && Admissible(req) && n >= CALL_LENGTH
    requires forall u :: 0 <= u < |Run(s, steps).calls| ==> Over(Run(s, steps).calls[u].phase)
    ensures var m := Run(s, steps);
            var t := |m.calls|;
            var end := Run(m, [Arrive(req)] + Turns(t, n));
            var (db, result) := Transfers.TransferAlone(m.db, m.nextId, req);
            end.db == db && t < |end.calls| && Outcome(end.calls[t].phase) == Some(result)
  {
    ReachableInv(opening, s, steps);
    RunKeepsLocksHeld(s, steps);
    OverIsQuiet(opening, Run(s, steps));
    AloneIsSerial(opening, Run(s, steps), req, n);
  }

  /**
   A statement of a call that throws ends it with that error at once: no row stays locked by it, none of its
   writes stays, and what is committed and every other call are as they were.
   */
  lemma AbortEndsCall(s: State, t: nat, error: Error)
    requires t < |s.calls| && !s.calls[t].phase.Returned? && !s.calls[t].phase.Failed?
    ensures var n := Apply(s, Abort(t, error));
            && n.calls == s.calls[t := Call(s.calls[t].req, Failed(error), Writes(map[], [], []))]
            && n.db == s.db && n.nextId == s.nextId
            && (forall a :: a in n.locks <==> a in s.locks && s.locks[a] != t)
            && (forall a :: a in n.locks ==> n.locks[a] == s.locks[a])
  {}

  // Another call holds the lock on account row `a`.
  predicate HeldByOther(s: State, t: nat, a: nat) {
    a in s.locks && s.locks[a] != t
  }

  /**
   A call whose next row is locked by another call waits and loses nothing; once the row is free it writes its
   balance on top of whatever has been committed meanwhile.
   */
  lemma BlockedCallWaits(opening: seq<int>, s: State, steps: seq<Step>, t: nat)
    requires Initial(opening, s) && t < |Run(s, steps).calls| && Run(s, steps).calls[t].phase.Reserved?
    ensures var m := Run(s, steps);
            var a, n := m.calls[t].req.senderId, Apply(m, Advance(t));
            && a < |m.db.accounts|
            && if HeldByOther(m, t, a) then n == m
               else n.calls[t].phase == SenderWritten(m.calls[t].phase.saved) &&
                    n.calls[t].writes.balances == map[a := m.db.accounts[a].balance - m.calls[t].req.amount]
  {
    ReachableInv(opening, s, steps);
    assert CallOk(Run(s, steps), t);
  }

  /**
   Of several calls of one key in flight, one commits. The others wait while it is open and end in a conflict
   once it has committed; a retry returns its row.
   */
  lemma KeyRace(opening: seq<int>, s: State, steps: seq<Step>, t: nat, row: Transaction)
    requires Initial(opening, s) && t < |Run(s, steps).calls|
    requires var m := Run(s, steps);
             m.calls[t].phase.Checked? && row in m.db.rows && row.key == m.calls[t].req.key
    ensures var m := Run(s, steps);
            var n, retry := Apply(m, Advance(t)), |m.calls|;
            var again := Run(n, [Arrive(m.calls[t].req), Advance(retry)]);
            && n.calls[t].phase == Failed(Conflict) && n.db == m.db
            && retry < |again.calls| && again.calls[retry].phase == Returned(row) && again.db == m.db
  {
    ReachableInv(opening, s, steps);
    var m := Run(s, steps);
    assert CallOk(m, t);
    LoserConflicts(opening, m, t, row);
    StepKeepsInv(opening, m, Advance(t));
    RetryReturns(opening, Apply(m, Advance(t)), m.calls[t].req, row);
  }

  /** While another call's row with the same key is not committed yet, a call waits with its own. */
  lemma KeyTakenWaits(s: State, t: nat, u: nat, row: Transaction)
    requires t < |s.calls| && u < |s.calls| && u != t && s.calls[t].phase.Checked?
    requires row in s.calls[u].writes.rows && row.key == s.calls[t].req.key
    ensures Apply(s, Advance(t)) == s
  {
    assert RowByKey(s.calls[u].writes.rows, row.key).Some?;
    assert KeyReserved(s, t, row.key);
  }

  lemma LoserConflicts(opening: seq<int>, s: State, t: nat, row: Transaction)
    requires Inv(opening, s) && t < |s.calls| && s.calls[t].phase.Checked?
    requires row in s.db.rows && row.key == s.calls[t].req.key
    ensures var n := Apply(s, Advance(t));
            |n.calls| == |s.calls| && n.calls[t].phase == Failed(Conflict) && n.db == s.db
  {
    NotReservedToo(opening, s, t, row);
  }

  lemma RunTwo(s: State, a: Step, b: Step)
    ensures Run(s, [a, b]) == Apply(Apply(s, a), b)
  {
    var both, one, next := [a, b], [b], Apply(s, a);
    assert both[1..] == one && one[1..] == [];
    assert Run(s, both) == Run(next, both[1..]);
    assert Run(next, one) == Run(Apply(next, b), one[1..]);
  }

  lemma FoundAtOnce(s: State, t: nat, row: Transaction)
    requires t < |s.calls| && s.calls[t].phase.Arrived?
    requires RowByKey(s.db.rows, s.calls[t].req.key) == Some(row) && row.status == SUCCESS
    ensures var n := Apply(s, Advance(t));
            n.db == s.db && |n.calls| == |s.calls| && n.calls[t].phase == Returned(row)
  {}

  lemma RetryReturns(opening: seq<int>, s: State, req: Request, row: Transaction)
    requires Inv(opening, s) && Admissible(req) && row in s.db.rows && row.key == req.key
    ensures var n := Run(s, [Arrive(req), Advance(|s.calls|)]);
            |n.calls| == |s.calls| + 1 && n.calls[|s.calls|].phase == Returned(row) && n.db == s.db
  {
    RowOfKey(opening, s, row);
    RunTwo(s, Arrive(req), Advance(|s.calls|));
    FoundAtOnce(Apply(s, Arrive(req)), |s.calls|, row);
  }

  lemma RowOfKey(opening: seq<int>, s: State, row: Transaction)
    requires Inv(opening, s) && row in s.db.rows
    ensures RowByKey(s.db.rows, row.key) == Some(row) && row.status == SUCCESS
  {
    var found := RowByKey(s.db.rows, row.key);
    var i: nat :| i < |s.db.rows| && s.db.rows[i] == row;
    var j: nat :| j < |s.db.rows| && s.db.rows[j] == found.value;
    assert RowOk(s.db.rows[i], s.db);
    assert i == j;
  }

  lemma NotReservedToo(opening: seq<int>, s: State, t: nat, row: Transaction)
    requires Inv(opening, s) && row in s.db.rows
    ensures !KeyReserved(s, t, row.key)
  {
    forall u | 0 <= u < |s.calls|
      ensures RowByKey(s.calls[u].writes.rows, row.key).None?
    {
      assert ReservationNew(s, u);
    }
  }

  /** Currencies do drift */

  const TWO_CURRENCIES :=
    State(Database([Account(0, "1000000000", "A", true, VND, MIN_AMOUNT),
                    Account(1, "2000000000", "B", true, USD, 0)], [], []), [], map[], 0)

  const ACROSS := Request(0, "key", 0, "2000000000", MIN_AMOUNT, VND, "", 0)

  lemma AcrossAlone()
    ensures Initial([MIN_AMOUNT, 0], TWO_CURRENCIES)
    ensures var before := TWO_CURRENCIES.db.accounts;
            Run(TWO_CURRENCIES, [Arrive(ACROSS)] + Turns(0, CALL_LENGTH)).db.accounts ==
            [before[0].(balance := 0), before[1].(balance := MIN_AMOUNT)]
  {
    var db := TWO_CURRENCIES.db;
    assert Books([MIN_AMOUNT, 0], db);
    AloneIsSerial([MIN_AMOUNT, 0], TWO_CURRENCIES, ACROSS, CALL_LENGTH);
    assert AccountByNumber(db.accounts, "2000000000") == Some(1);
  }

  lemma TotalOfTwo(a: Account, b: Account, currency: Currency)
    ensures TotalIn([a, b], currency) == BalanceIn(currency)(a) + BalanceIn(currency)(b)
  {
    var none: seq<Account> := [];
    assert [a, b] == none + [a] + [b] && [a] == none + [a];
    SumAppend(BalanceIn(currency), none, a);
    SumAppend(BalanceIn(currency), [a], b);
  }

  /** A transfer from a VND account to a USD account turns the amount from the one currency into the other. */
  lemma CurrencyLost()
    ensures Initial([MIN_AMOUNT, 0], TWO_CURRENCIES) && Admissible(ACROSS)
    ensures var before := TWO_CURRENCIES.db.accounts;
            var after := Run(TWO_CURRENCIES, [Arrive(ACROSS)] + Turns(0, CALL_LENGTH)).db.accounts;
            && TotalIn(before, VND) == MIN_AMOUNT && TotalIn(before, USD) == 0
            && TotalIn(after, VND) == 0 && TotalIn(after, USD) == MIN_AMOUNT
  {
    AcrossAlone();
    var a, b := TWO_CURRENCIES.db.accounts[0], TWO_CURRENCIES.db.accounts[1];
    TotalOfTwo(a, b, VND);
    TotalOfTwo(a, b, USD);
    TotalOfTwo(a.(balance := 0), b.(balance := MIN_AMOUNT), VND);
    TotalOfTwo(a.(balance := 0), b.(balance := MIN_AMOUNT), USD);
  }
}
