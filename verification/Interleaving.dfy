/**
 Any number of transfers in flight at once, interleaved statement by statement.

 The store offers what the code relies on: committed reads that take no lock, row locks held
 to commit or abort, a unique index on the idempotency key, and writes that stay private to
 their database transaction until it commits. A run is a sequence of steps; a step that is
 not enabled (a call waiting for a lock) leaves the state as it is, so every sequence of
 steps is a run.
 */
module Interleaving {
  import opened Wrappers
  import opened Ledger
  import Accounts

  // Where a call of `transfer` stands, with the locals later statements use: the balance read from
  // the sender, the receiver found by number, the saved transaction.
  datatype Phase =
    | Arrived
    | Begun
    | SenderRead(seen: int)
    | Checked(receiver: nat)
    | Reserved(saved: Transaction)
    | SenderWritten(saved: Transaction)
    | BothWritten(saved: Transaction)
    | Posted(saved: Transaction)
    | Marked(saved: Transaction)
    | Committed(row: Transaction)
    | Returned(row: Transaction)
    | Failed(error: Error)

  // The private writes of an open database transaction.
  datatype Writes = Writes(balances: map<nat, int>, rows: seq<Transaction>, entries: seq<LedgerEntry>)

  const NO_WRITES := Writes(map[], [], [])

  datatype Call = Call(req: Request, phase: Phase, writes: Writes)

  // `locks` maps a locked account row to the call that holds it.
  datatype State = State(db: Database, calls: seq<Call>, locks: map<nat, nat>, nextId: nat)

  datatype Step =
    | Arrive(req: Request)
    | Advance(t: nat)
    | Abort(t: nat, error: Error)
    | AccountStep(q: Accounts.AccountRequest)

  /** Steps */

  // `n` differs from `s` in no other call than `t`, and serves the same request.
  predicate OnlyCall(s: State, n: State, t: nat) {
    t < |s.calls| == |n.calls| && n.calls == s.calls[t := n.calls[t]] && n.calls[t].req == s.calls[t].req
  }

  function Put(s: State, t: nat, call: Call): State
    requires t < |s.calls|
  {
    s.(calls := s.calls[t := call])
  }

  function Goto(s: State, t: nat, phase: Phase): State
    requires t < |s.calls|
  {
    Put(s, t, s.calls[t].(phase := phase))
  }

  function Release(locks: map<nat, nat>, t: nat): map<nat, nat> {
    map a | a in locks && locks[a] != t :: locks[a]
  }

  function Rollback(s: State, t: nat, error: Error): State
    requires t < |s.calls|
  {
    Put(s, t, s.calls[t].(phase := Failed(error), writes := NO_WRITES)).(locks := Release(s.locks, t))
  }

  // Another open database transaction has inserted this key: the unique index makes us wait.
  predicate KeyReserved(s: State, t: nat, key: string) {
    exists u :: 0 <= u < |s.calls| && u != t && RowByKey(s.calls[u].writes.rows, key).Some?
  }

  // SELECT ... FOR UPDATE, add, save: the read-modify-write of `updateBalance`.
  function UpdateBalance(s: State, t: nat, a: nat, delta: int, next: Phase): (n: State)
    requires t < |s.calls|
    ensures OnlyCall(s, n, t)
  {
    if a in s.locks && s.locks[a] != t then s
    else if a >= |s.db.accounts| then Rollback(s, t, NotFound)
    else
      var call := s.calls[t];
      var balance := if a in call.writes.balances then call.writes.balances[a] else s.db.accounts[a].balance;
      Put(s, t, call.(phase := next,
                      writes := call.writes.(balances := call.writes.balances[a := balance + delta])))
      .(locks := s.locks[a := t])
  }

  function WithBalances(accounts: seq<Account>, balances: map<nat, int>): (r: seq<Account>)
    ensures |r| == |accounts|
  {
    seq(|accounts|, a requires 0 <= a < |accounts| =>
      if a in balances then accounts[a].(balance := balances[a]) else accounts[a])
  }

  function Commit(s: State, t: nat, saved: Transaction): (n: State)
    requires t < |s.calls|
    ensures OnlyCall(s, n, t)
  {
    var w := s.calls[t].writes;
    Put(s, t, s.calls[t].(phase := Committed(saved), writes := NO_WRITES))
    .(db := Database(WithBalances(s.db.accounts, w.balances), s.db.rows + w.rows, s.db.entries + w.entries),
      locks := Release(s.locks, t))
  }

  function CheckBeforeStart(s: State, t: nat): (n: State)
    requires t < |s.calls|
    ensures OnlyCall(s, n, t)
  {
    match RowByKey(s.db.rows, s.calls[t].req.key)
    case None => Goto(s, t, Begun)
    case Some(row) =>
      match row.status
      case SUCCESS => Goto(s, t, Returned(row))
      case PENDING => Goto(s, t, Failed(Conflict))
      case FAILED => Goto(s, t, Failed(BadRequest))
      case CANCELLED => Goto(s, t, Begun)
  }

  function ReadSender(s: State, t: nat): (n: State)
    requires t < |s.calls|
    ensures OnlyCall(s, n, t)
  {
    var req := s.calls[t].req;
    if req.senderId >= |s.db.accounts| then Rollback(s, t, NotFound)
    else if s.db.accounts[req.senderId].userId != req.userId then Rollback(s, t, BadRequest)
    else Goto(s, t, SenderRead(s.db.accounts[req.senderId].balance))
  }

  function ReadReceiver(s: State, t: nat, seen: int): (n: State)
    requires t < |s.calls|
    ensures OnlyCall(s, n, t)
  {
    var req := s.calls[t].req;
    match AccountByNumber(s.db.accounts, req.receiverNumber)
    case None => Rollback(s, t, NotFound)
    case Some(receiver) =>
      if req.senderId == receiver then Rollback(s, t, BadRequest)
      else if seen < req.amount then Rollback(s, t, BadRequest)
      else Goto(s, t, Checked(receiver))
  }

  function PendingRow(req: Request, id: nat, receiver: nat): Transaction {
    Transaction(id, req.senderId, receiver, req.amount, req.currency, req.description, req.key, PENDING, req.at)
  }

  function ReserveKey(s: State, t: nat, receiver: nat): (n: State)
    requires t < |s.calls|
    ensures OnlyCall(s, n, t)
  {
    var call := s.calls[t];
    if KeyReserved(s, t, call.req.key) then s
    else if RowByKey(s.db.rows, call.req.key).Some? then Rollback(s, t, Conflict)
    else
      var saved := PendingRow(call.req, s.nextId, receiver);
      Put(s, t, call.(phase := Reserved(saved), writes := call.writes.(rows := call.writes.rows + [saved])))
      .(nextId := s.nextId + 1)
  }

  function PostEntries(s: State, t: nat, saved: Transaction): (n: State)
    requires t < |s.calls|
    ensures OnlyCall(s, n, t)
  {
    var call := s.calls[t];
    var entries := [LedgerEntry(saved.id, call.req.senderId, DEBIT, call.req.amount),
                    LedgerEntry(saved.id, saved.receiverId, CREDIT, call.req.amount)];
    Put(s, t, call.(phase := Posted(saved), writes := call.writes.(entries := call.writes.entries + entries)))
  }

  function MarkSuccess(s: State, t: nat, saved: Transaction): (n: State)
    requires t < |s.calls|
    ensures OnlyCall(s, n, t)
  {
    var call := s.calls[t];
    var marked := saved.(status := SUCCESS);
    var rows := seq(|call.writes.rows|, i requires 0 <= i < |call.writes.rows| =>
      if call.writes.rows[i].id == saved.id then marked else call.writes.rows[i]);
    Put(s, t, call.(phase := Marked(marked), writes := call.writes.(rows := rows)))
  }

  // The next statement of call `t`.
  function AdvanceCall(s: State, t: nat): (n: State)
    requires t < |s.calls|
    ensures OnlyCall(s, n, t)
  {
    var req := s.calls[t].req;
    match s.calls[t].phase
    case Arrived => CheckBeforeStart(s, t)
    case Begun => ReadSender(s, t)
    case SenderRead(seen) => ReadReceiver(s, t, seen)
    case Checked(receiver) => ReserveKey(s, t, receiver)
    case Reserved(saved) => UpdateBalance(s, t, req.senderId, -req.amount, SenderWritten(saved))
    case SenderWritten(saved) => UpdateBalance(s, t, saved.receiverId, req.amount, BothWritten(saved))
    case BothWritten(saved) => PostEntries(s, t, saved)
    case Posted(saved) => MarkSuccess(s, t, saved)
    case Marked(saved) => Commit(s, t, saved)
    case Committed(row) => Goto(s, t, Returned(row))
    case Returned(_) => s
    case Failed(_) => s
  }

  // A statement throws. After the commit the error is reported although nothing is undone.
  function AbortCall(s: State, t: nat, error: Error): State
    requires t < |s.calls|
  {
    match s.calls[t].phase
    case Returned(_) => s
    case Failed(_) => s
    case _ => Rollback(s, t, error)
  }

  function Apply(s: State, step: Step): State
  {
    match step
    case Arrive(req) => if Admissible(req) then s.(calls := s.calls + [Call(req, Arrived, NO_WRITES)]) else s
    case Advance(t) => if t < |s.calls| then AdvanceCall(s, t) else s
    case Abort(t, error) => if t < |s.calls| then AbortCall(s, t, error) else s
    case AccountStep(q) => s.(db := s.db.(accounts := Accounts.Handle(s.db.accounts, q)))
  }

  function Run(s: State, steps: seq<Step>): State
    decreases steps
  {
    if steps == [] then s else Run(Apply(s, steps[0]), steps[1..])
  }

  /** The invariant */

  // What account `a` held before the first run; later accounts open empty.
  function Opening(opening: seq<int>, a: nat): int {
    if a < |opening| then opening[a] else 0
  }

  ghost predicate RowOk(row: Transaction, db: Database) {
    row.status == SUCCESS && row.senderId != row.receiverId && row.amount >= MIN_AMOUNT &&
    row.senderId < |db.accounts| && row.receiverId < |db.accounts|
  }

  // The committed tables: no update is lost, and the ledger is the double entries of the rows.
  ghost predicate Books(opening: seq<int>, db: Database) {
    && |opening| <= |db.accounts|
    && (forall a :: 0 <= a < |db.accounts| ==> db.accounts[a].balance == Opening(opening, a) + Net(db.entries, a))
    && db.entries == Postings(db.rows)
    && (forall i :: 0 <= i < |db.rows| ==> RowOk(db.rows[i], db))
    && (forall i, j :: 0 <= i < j < |db.rows| ==> db.rows[i].key != db.rows[j].key && db.rows[i].id != db.rows[j].id)
  }

  predicate Holds(s: State, t: nat, a: nat) {
    a in s.locks && s.locks[a] == t && a < |s.db.accounts|
  }

  // The requester owns the sending account, and `r` is the account asked for by number.
  predicate Parties(s: State, req: Request, r: nat) {
    && req.senderId < |s.db.accounts| && s.db.accounts[req.senderId].userId == req.userId
    && r < |s.db.accounts| && s.db.accounts[r].number == req.receiverNumber
    && req.senderId != r
  }

  // What call `t` has read and privately written, by phase.
  ghost predicate CallOk(s: State, t: nat)
    requires t < |s.calls|
  {
    var req, w := s.calls[t].req, s.calls[t].writes;
    var sender := req.senderId;
    && Admissible(req)
    && match s.calls[t].phase
       case Arrived => w == NO_WRITES
       case Begun => w == NO_WRITES
       case SenderRead(seen) =>
         w == NO_WRITES && sender < |s.db.accounts| && s.db.accounts[sender].userId == req.userId
       case Checked(r) => w == NO_WRITES && Parties(s, req, r)
       case Reserved(saved) => RowReserved(s, t, saved, PENDING) && w.balances == map[] && w.entries == []
       case SenderWritten(saved) =>
         RowReserved(s, t, saved, PENDING) && Holds(s, t, sender) && w.entries == [] &&
         w.balances == map[sender := s.db.accounts[sender].balance - req.amount]
       case BothWritten(saved) => RowReserved(s, t, saved, PENDING) && BalancesWritten(s, t, saved) && w.entries == []
       case Posted(saved) =>
         RowReserved(s, t, saved, PENDING) && BalancesWritten(s, t, saved) && w.entries == Posting(saved)
       case Marked(saved) =>
         RowReserved(s, t, saved, SUCCESS) && BalancesWritten(s, t, saved) && w.entries == Posting(saved)
       case Committed(row) =>
         w == NO_WRITES && row in s.db.rows && Parties(s, req, row.receiverId) &&
         row == PendingRow(req, row.id, row.receiverId).(status := SUCCESS)
       case Returned(row) => w == NO_WRITES && row in s.db.rows && row.key == req.key
       case Failed(_) => w == NO_WRITES
  }

  ghost predicate RowReserved(s: State, t: nat, saved: Transaction, status: Status)
    requires t < |s.calls|
  {
    var req := s.calls[t].req;
    && Parties(s, req, saved.receiverId)
    && saved == PendingRow(req, saved.id, saved.receiverId).(status := status) && saved.id < s.nextId
    && s.calls[t].writes.rows == [saved]
  }

  ghost predicate BalancesWritten(s: State, t: nat, saved: Transaction)
    requires t < |s.calls|
  {
    var req, receiver := s.calls[t].req, saved.receiverId;
    && Holds(s, t, req.senderId) && Holds(s, t, receiver)
    && s.calls[t].writes.balances == map[req.senderId := s.db.accounts[req.senderId].balance - req.amount,
                                         receiver := s.db.accounts[receiver].balance + req.amount]
  }

  predicate DifferentRows(a: Transaction, b: Transaction) {
    a.key != b.key && a.id != b.id
  }

  // Keys and ids of uncommitted rows are new and pairwise distinct.
  ghost predicate ReservationNew(s: State, t: nat)
    requires t < |s.calls|
  {
    forall row, i :: row in s.calls[t].writes.rows && 0 <= i < |s.db.rows| ==> DifferentRows(s.db.rows[i], row)
  }

  ghost predicate ReservedApart(s: State, t: nat, u: nat)
    requires t < |s.calls| && u < |s.calls|
  {
    forall row, other :: row in s.calls[t].writes.rows && other in s.calls[u].writes.rows ==> DifferentRows(row, other)
  }

  ghost predicate ReservationsOk(s: State) {
    && (forall i :: 0 <= i < |s.db.rows| ==> s.db.rows[i].id < s.nextId)
    && (forall t :: 0 <= t < |s.calls| ==> ReservationNew(s, t))
    && (forall t, u :: 0 <= t < |s.calls| && 0 <= u < |s.calls| && t != u ==> ReservedApart(s, t, u))
  }

  ghost predicate Inv(opening: seq<int>, s: State) {
    && Books(opening, s.db)
    && (forall t :: 0 <= t < |s.calls| ==> CallOk(s, t))
    && ReservationsOk(s)
  }

  /** Each step keeps the invariant */

  // Call `u` keeps its part of the invariant when another call's step touches nothing it relies on.
  lemma CallUntouched(s: State, n: State, u: nat)
    requires u < |s.calls| && u < |n.calls| && s.calls[u] == n.calls[u] && CallOk(s, u)
    requires |s.db.accounts| <= |n.db.accounts| && s.nextId <= n.nextId
    requires forall a :: 0 <= a < |s.db.accounts| ==>
               n.db.accounts[a].userId == s.db.accounts[a].userId && n.db.accounts[a].number == s.db.accounts[a].number
    requires forall a: nat :: Holds(s, u, a) ==> Holds(n, u, a) && n.db.accounts[a].balance == s.db.accounts[a].balance
    requires forall row :: row in s.db.rows ==> row in n.db.rows
    ensures CallOk(n, u)
  {}

  // A step of call `t` that commits nothing and takes and releases only its own locks.
  ghost predicate Private(s: State, n: State, t: nat) {
    && t < |s.calls| == |n.calls| && n.db == s.db && s.nextId <= n.nextId
    && (forall u :: 0 <= u < |s.calls| && u != t ==> n.calls[u] == s.calls[u])
    && (forall a :: a in s.locks && s.locks[a] != t ==> a in n.locks && n.locks[a] == s.locks[a])
  }

  // The uncommitted rows of call `t` are still the same ones, by key and id.
  ghost predicate SameReservations(s: State, n: State, t: nat)
    requires t < |s.calls| && t < |n.calls|
  {
    forall row :: row in n.calls[t].writes.rows ==>
      exists old' :: old' in s.calls[t].writes.rows && old'.key == row.key && old'.id == row.id
  }

  lemma PrivateReservations(s: State, n: State, t: nat)
    requires ReservationsOk(s) && Private(s, n, t) && SameReservations(s, n, t)
    ensures ReservationsOk(n)
  {
    forall u | 0 <= u < |n.calls|
      ensures ReservationNew(n, u)
    {
      assert ReservationNew(s, u);
    }
    forall u, v | 0 <= u < |n.calls| && 0 <= v < |n.calls| && u != v
      ensures ReservedApart(n, u, v)
    {
      assert ReservedApart(s, u, v);
    }
  }

  lemma PrivateStep(opening: seq<int>, s: State, n: State, t: nat)
    requires Inv(opening, s) && Private(s, n, t) && CallOk(n, t) && SameReservations(s, n, t)
    ensures Inv(opening, n)
  {
    forall u | 0 <= u < |n.calls|
      ensures CallOk(n, u)
    {
      if u != t {
        assert CallOk(s, u);
        CallUntouched(s, n, u);
      }
    }
    PrivateReservations(s, n, t);
  }

  lemma RollbackStep(opening: seq<int>, s: State, t: nat, error: Error)
    requires Inv(opening, s) && t < |s.calls|
    ensures Inv(opening, Rollback(s, t, error))
  {
    assert CallOk(s, t);
    PrivateStep(opening, s, Rollback(s, t, error), t);
  }

  lemma GotoStep(opening: seq<int>, s: State, t: nat, phase: Phase)
    requires Inv(opening, s) && t < |s.calls| && CallOk(Goto(s, t, phase), t)
    ensures Inv(opening, Goto(s, t, phase))
  {
    PrivateStep(opening, s, Goto(s, t, phase), t);
  }

  lemma CheckStep(opening: seq<int>, s: State, t: nat)
    requires Inv(opening, s) && t < |s.calls| && s.calls[t].phase.Arrived?
    ensures Inv(opening, AdvanceCall(s, t))
  {
    assert CallOk(s, t);
    GotoStep(opening, s, t, CheckBeforeStart(s, t).calls[t].phase);
  }

  lemma ReadStep(opening: seq<int>, s: State, t: nat)
    requires Inv(opening, s) && t < |s.calls| && (s.calls[t].phase.Begun? || s.calls[t].phase.SenderRead?)
    ensures Inv(opening, AdvanceCall(s, t))
  {
    assert CallOk(s, t);
    var n := if s.calls[t].phase.Begun? then ReadSender(s, t) else ReadReceiver(s, t, s.calls[t].phase.seen);
    if n.calls[t].phase.Failed? {
      RollbackStep(opening, s, t, n.calls[t].phase.error);
    } else {
      GotoStep(opening, s, t, n.calls[t].phase);
    }
  }

  lemma UpdateBalanceStep(opening: seq<int>, s: State, t: nat)
    requires Inv(opening, s) && t < |s.calls|
    requires s.calls[t].phase.Reserved? || s.calls[t].phase.SenderWritten?
    ensures Inv(opening, AdvanceCall(s, t))
  {
    assert CallOk(s, t);
    var n := AdvanceCall(s, t);
    if n != s {
      assert CallOk(n, t);
      PrivateStep(opening, s, n, t);
    }
  }

  lemma RecordStep(opening: seq<int>, s: State, t: nat)
    requires Inv(opening, s) && t < |s.calls|
    requires s.calls[t].phase.BothWritten? || s.calls[t].phase.Posted?
    ensures Inv(opening, AdvanceCall(s, t))
  {
    assert CallOk(s, t);
    var n := AdvanceCall(s, t);
    assert CallOk(n, t);
    PrivateStep(opening, s, n, t);
  }

  // The row just reserved differs from every row committed or reserved by others.
  lemma ReservationIsNew(opening: seq<int>, s: State, n: State, t: nat)
    requires Inv(opening, s) && t < |s.calls| && s.calls[t].phase.Checked?
    requires n == AdvanceCall(s, t) && n.calls[t].phase.Reserved?
    ensures ReservationsOk(n)
  {
    assert CallOk(s, t);
    var saved := n.calls[t].phase.saved;
    forall u | 0 <= u < |n.calls|
      ensures ReservationNew(n, u)
    {
      assert ReservationNew(s, u);
    }
    forall u | 0 <= u < |n.calls| && u != t
      ensures ReservedApart(n, u, t) && ReservedApart(n, t, u)
    {
      assert RowByKey(s.calls[u].writes.rows, saved.key).None?;
      assert CallOk(s, u);
    }
    forall u, v | 0 <= u < |n.calls| && 0 <= v < |n.calls| && u != v
      ensures ReservedApart(n, u, v)
    {
      assert ReservedApart(s, u, v);
    }
  }

  lemma ReserveStep(opening: seq<int>, s: State, t: nat)
    requires Inv(opening, s) && t < |s.calls| && s.calls[t].phase.Checked?
    ensures Inv(opening, AdvanceCall(s, t))
  {
    assert CallOk(s, t);
    var n := AdvanceCall(s, t);
    if n.calls[t].phase.Failed? {
      RollbackStep(opening, s, t, Conflict);
    } else if n != s {
      ReservationIsNew(opening, s, n, t);
      forall u | 0 <= u < |n.calls|
        ensures CallOk(n, u)
      {
        assert CallOk(s, u);
        if u != t {
          CallUntouched(s, n, u);
        }
      }
    }
  }

  // What the commit of call `t` does to the committed tables.
  lemma CommitEffect(opening: seq<int>, s: State, t: nat)
    requires Inv(opening, s) && t < |s.calls| && s.calls[t].phase.Marked?
    ensures var n, saved := AdvanceCall(s, t), s.calls[t].phase.saved;
            && n.db.rows == s.db.rows + [saved] && n.db.entries == s.db.entries + Posting(saved)
            && |n.db.accounts| == |s.db.accounts| && RowOk(saved, s.db)
            && Holds(s, t, saved.senderId) && Holds(s, t, saved.receiverId)
            && forall a :: 0 <= a < |s.db.accounts| ==>
                 n.db.accounts[a] == s.db.accounts[a].(balance := s.db.accounts[a].balance + Net(Posting(saved), a))
  {
    assert CallOk(s, t);
    var saved := s.calls[t].phase.saved;
    forall a: nat {
      NetPosting(saved, a);
    }
  }

  lemma CommitBooks(opening: seq<int>, s: State, n: State, saved: Transaction)
    requires Books(opening, s.db) && RowOk(saved, s.db)
    requires n.db.rows == s.db.rows + [saved] && n.db.entries == s.db.entries + Posting(saved)
    requires |n.db.accounts| == |s.db.accounts|
    requires forall a :: 0 <= a < |s.db.accounts| ==>
               n.db.accounts[a].balance == s.db.accounts[a].balance + Net(Posting(saved), a)
    requires forall i :: 0 <= i < |s.db.rows| ==> DifferentRows(s.db.rows[i], saved)
    ensures Books(opening, n.db)
  {
    assert n.db.rows[..|s.db.rows|] == s.db.rows;
    forall a | 0 <= a < |n.db.accounts|
      ensures n.db.accounts[a].balance == Opening(opening, a) + Net(n.db.entries, a)
    {
      NetConcat(s.db.entries, Posting(saved), a);
    }
    forall i | 0 <= i < |n.db.rows|
      ensures RowOk(n.db.rows[i], n.db)
    {
      if i < |s.db.rows| {
        assert RowOk(s.db.rows[i], s.db);
      }
    }
  }

  lemma ReservationsAtCommit(opening: seq<int>, s: State, t: nat)
    requires Inv(opening, s) && t < |s.calls| && s.calls[t].phase.Marked?
    ensures ReservationsOk(Commit(s, t, s.calls[t].phase.saved))
  {
    var n := Commit(s, t, s.calls[t].phase.saved);
    assert n == AdvanceCall(s, t) && n.calls[t].writes == NO_WRITES;
    CommitEffect(opening, s, t);
    assert CallOk(s, t);
    forall u | 0 <= u < |n.calls|
      ensures ReservationNew(n, u)
    {
      if u != t {
        OthersAtCommit(opening, s, t, u);
      }
    }
    forall u, v | 0 <= u < |n.calls| && 0 <= v < |n.calls| && u != v
      ensures ReservedApart(n, u, v)
    {
      assert ReservedApart(s, u, v);
    }
  }

  lemma CommitStep(opening: seq<int>, s: State, t: nat)
    requires Inv(opening, s) && t < |s.calls| && s.calls[t].phase.Marked?
    ensures Inv(opening, AdvanceCall(s, t))
  {
    var n, saved := AdvanceCall(s, t), s.calls[t].phase.saved;
    CommitEffect(opening, s, t);
    ReservationsAtCommit(opening, s, t);
    assert CallOk(s, t) && ReservationNew(s, t) && saved in s.calls[t].writes.rows;
    CommitBooks(opening, s, n, saved);
    forall u | 0 <= u < |n.calls|
      ensures CallOk(n, u)
    {
      if u != t {
        OthersAtCommit(opening, s, t, u);
      } else {
        assert saved == n.db.rows[|s.db.rows|];
      }
    }
  }

  lemma OthersAtCommit(opening: seq<int>, s: State, t: nat, u: nat)
    requires Inv(opening, s) && t < |s.calls| && s.calls[t].phase.Marked?
    requires u < |s.calls| && u != t
    ensures CallOk(AdvanceCall(s, t), u) && ReservationNew(AdvanceCall(s, t), u)
  {
    var n, saved := AdvanceCall(s, t), s.calls[t].phase.saved;
    CommitEffect(opening, s, t);
    assert CallOk(s, t) && CallOk(s, u) && ReservationNew(s, u) && ReservedApart(s, t, u);
    assert saved in s.calls[t].writes.rows;
    forall a: nat | Holds(s, u, a)
      ensures Holds(n, u, a) && n.db.accounts[a].balance == s.db.accounts[a].balance
    {
      NetPosting(saved, a);
    }
    CallUntouched(s, n, u);
  }

  lemma ArriveStep(opening: seq<int>, s: State, req: Request)
    requires Inv(opening, s)
    ensures Inv(opening, Apply(s, Arrive(req)))
  {
    var n := Apply(s, Arrive(req));
    if n != s {
      forall u | 0 <= u < |n.calls|
        ensures CallOk(n, u) && ReservationNew(n, u)
      {
        if u < |s.calls| {
          assert CallOk(s, u) && ReservationNew(s, u);
          CallUntouched(s, n, u);
        }
      }
      forall u, v | 0 <= u < |n.calls| && 0 <= v < |n.calls| && u != v
        ensures ReservedApart(n, u, v)
      {
        if u < |s.calls| && v < |s.calls| {
          assert ReservedApart(s, u, v);
        }
      }
    }
  }

  lemma AccountRequestMoney(s: State, q: Accounts.AccountRequest)
    ensures var r := Accounts.Handle(s.db.accounts, q);
            |s.db.accounts| <= |r| && Accounts.SameMoney(s.db.accounts, r[..|s.db.accounts|]) &&
            forall a :: |s.db.accounts| <= a < |r| ==> r[a].balance == 0
  {
    var accounts := s.db.accounts;
    var r := Accounts.Handle(accounts, q);
    match q {
      case Create(userId, name, currency, wantPrimary, draws) =>
        var number := Accounts.FirstUnused(accounts, draws);
        if number.Some? {
          Accounts.CreatedMoney(accounts, userId, number.value, name, currency, wantPrimary);
        }
      case Update(id, userId, newName, primary) =>
        Accounts.UpdatedMoney(accounts, id, userId, newName, primary);
    }
    if |r| == |accounts| {
      assert r[..|accounts|] == r;
    }
  }

  // No entry names an account that does not exist yet.
  lemma {:induction false} NoEntries(rows: seq<Transaction>, a: nat)
    requires forall i :: 0 <= i < |rows| ==> rows[i].senderId < a && rows[i].receiverId < a
    ensures Net(Postings(rows), a) == 0
  {
    if rows != [] {
      var last := rows[|rows| - 1];
      NoEntries(rows[..|rows| - 1], a);
      NetConcat(Postings(rows[..|rows| - 1]), Posting(last), a);
      assert Net(Posting(last), a) == 0 by {
        assert Posting(last)[..1][..0] == [];
        assert Net(Posting(last)[..1], a) == 0;
      }
    }
  }

  lemma AccountStepStep(opening: seq<int>, s: State, q: Accounts.AccountRequest)
    requires Inv(opening, s)
    ensures Inv(opening, Apply(s, AccountStep(q)))
  {
    var n := Apply(s, AccountStep(q));
    AccountRequestMoney(s, q);
    forall a | 0 <= a < |n.db.accounts|
      ensures n.db.accounts[a].balance == Opening(opening, a) + Net(n.db.entries, a)
    {
      if a < |s.db.accounts| {
        assert n.db.accounts[..|s.db.accounts|][a] == n.db.accounts[a];
      } else {
        forall i | 0 <= i < |s.db.rows|
          ensures s.db.rows[i].senderId < a && s.db.rows[i].receiverId < a
        {
          assert RowOk(s.db.rows[i], s.db);
        }
        NoEntries(s.db.rows, a);
      }
    }
    forall i | 0 <= i < |n.db.rows|
      ensures RowOk(n.db.rows[i], n.db)
    {
      assert RowOk(s.db.rows[i], s.db);
    }
    forall a | 0 <= a < |s.db.accounts|
      ensures n.db.accounts[a].userId == s.db.accounts[a].userId && n.db.accounts[a].number == s.db.accounts[a].number
    {
      assert n.db.accounts[..|s.db.accounts|][a] == n.db.accounts[a];
    }
    forall u | 0 <= u < |n.calls|
      ensures CallOk(n, u) && ReservationNew(n, u)
    {
      assert CallOk(s, u) && ReservationNew(s, u);
      forall a: nat | Holds(s, u, a)
        ensures Holds(n, u, a) && n.db.accounts[a].balance == s.db.accounts[a].balance
      {
        assert n.db.accounts[..|s.db.accounts|][a] == n.db.accounts[a];
      }
      CallUntouched(s, n, u);
    }
    forall u, v | 0 <= u < |n.calls| && 0 <= v < |n.calls| && u != v
      ensures ReservedApart(n, u, v)
    {
      assert ReservedApart(s, u, v);
    }
  }

  lemma StepKeepsInv(opening: seq<int>, s: State, step: Step)
    requires Inv(opening, s)
    ensures Inv(opening, Apply(s, step))
  {
    match step {
      case Arrive(req) => ArriveStep(opening, s, req);
      case AccountStep(q) => AccountStepStep(opening, s, q);
      case Abort(t, error) =>
        if t < |s.calls| {
          RollbackStep(opening, s, t, error);
        }
      case Advance(t) =>
        if t < |s.calls| {
          match s.calls[t].phase {
            case Checked(_) => ReserveStep(opening, s, t);
            case Reserved(_) => UpdateBalanceStep(opening, s, t);
            case SenderWritten(_) => UpdateBalanceStep(opening, s, t);
            case BothWritten(_) => RecordStep(opening, s, t);
            case Posted(_) => RecordStep(opening, s, t);
            case Marked(_) => CommitStep(opening, s, t);
            case Arrived => CheckStep(opening, s, t);
            case Begun => ReadStep(opening, s, t);
            case SenderRead(_) => ReadStep(opening, s, t);
            case Committed(row) =>
              assert CallOk(s, t);
              GotoStep(opening, s, t, Returned(row));
            case Returned(_) =>
            case Failed(_) =>
          }
        }
    }
  }

  // No transfer has run yet; `opening` lists what the accounts hold.
  ghost predicate Initial(opening: seq<int>, s: State) {
    s.db.rows == [] && s.db.entries == [] && s.calls == [] && s.locks == map[] &&
    |opening| == |s.db.accounts| && forall a :: 0 <= a < |opening| ==> s.db.accounts[a].balance == opening[a]
  }

  lemma {:induction false} RunKeepsInv(opening: seq<int>, s: State, steps: seq<Step>)
    requires Inv(opening, s)
    ensures Inv(opening, Run(s, steps))
    decreases steps
  {
    if steps != [] {
      StepKeepsInv(opening, s, steps[0]);
      RunKeepsInv(opening, Apply(s, steps[0]), steps[1..]);
    }
  }

  lemma ReachableInv(opening: seq<int>, s: State, steps: seq<Step>)
    requires Initial(opening, s)
    ensures Inv(opening, Run(s, steps))
  {
    assert Inv(opening, s);
    RunKeepsInv(opening, s, steps);
  }

  /** Main results */

  /**
   No update is lost: in every reachable committed state each account holds its opening balance
   plus its CREDIT entries minus its DEBIT entries.
   */
  lemma NoLostUpdate(opening: seq<int>, s: State, steps: seq<Step>, a: nat)
    requires Initial(opening, s)
    ensures var db := Run(s, steps).db;
            a < |db.accounts| ==> db.accounts[a].balance == Opening(opening, a) + Net(db.entries, a)
  {
    ReachableInv(opening, s, steps);
  }

  // The positions of the entries of transaction `id` of one kind.
  function EntriesOf(entries: seq<LedgerEntry>, id: nat, kind: EntryType): set<nat> {
    set i: nat | i < |entries| && entries[i].transactionId == id && entries[i].kind == kind
  }

  lemma {:induction false} PostingsAt(rows: seq<Transaction>)
    ensures |Postings(rows)| == 2 * |rows|
    ensures forall i :: 0 <= i < |rows| ==>
              Postings(rows)[2 * i] == Posting(rows[i])[0] && Postings(rows)[2 * i + 1] == Posting(rows[i])[1]
  {
    if rows != [] {
      PostingsAt(rows[..|rows| - 1]);
    }
  }

  lemma {:induction false} PostingsOf(rows: seq<Transaction>, i: nat)
    requires forall j, k :: 0 <= j < k < |rows| ==> rows[j].id != rows[k].id
    requires i < |rows|
    ensures EntriesOf(Postings(rows), rows[i].id, DEBIT) == {2 * i}
    ensures EntriesOf(Postings(rows), rows[i].id, CREDIT) == {2 * i + 1}
  {
    PostingsAt(rows);
    var entries := Postings(rows);
    forall k: nat | k < |entries|
      ensures entries[k].transactionId == rows[i].id ==> k / 2 == i
      ensures entries[k].kind == if k % 2 == 0 then DEBIT else CREDIT
    {
      assert k == 2 * (k / 2) + k % 2;
      assert entries[k] == Posting(rows[k / 2])[k % 2];
    }
    assert entries[2 * i] == Posting(rows[i])[0] && entries[2 * i + 1] == Posting(rows[i])[1];
  }

  /**
   Every committed row, in every reachable state, is a SUCCESS with exactly one DEBIT, on its
   sender, and exactly one CREDIT, on its receiver, both for its amount; and every entry belongs
   to a committed row.
   */
  lemma OnlySuccessWithOnePair(opening: seq<int>, s: State, steps: seq<Step>)
    requires Initial(opening, s)
    ensures var db := Run(s, steps).db;
            forall i :: 0 <= i < |db.rows| ==>
              var row := db.rows[i];
              row.status == SUCCESS &&
              exists d, c ::
                EntriesOf(db.entries, row.id, DEBIT) == {d} && EntriesOf(db.entries, row.id, CREDIT) == {c} &&
                db.entries[d] == LedgerEntry(row.id, row.senderId, DEBIT, row.amount) &&
                db.entries[c] == LedgerEntry(row.id, row.receiverId, CREDIT, row.amount)
    ensures var db := Run(s, steps).db; |db.entries| == 2 * |db.rows|
  {
    ReachableInv(opening, s, steps);
    var db := Run(s, steps).db;
    PostingsAt(db.rows);
    forall i | 0 <= i < |db.rows|
      ensures var row := db.rows[i];
              row.status == SUCCESS &&
              exists d, c ::
                EntriesOf(db.entries, row.id, DEBIT) == {d} && EntriesOf(db.entries, row.id, CREDIT) == {c} &&
                db.entries[d] == LedgerEntry(row.id, row.senderId, DEBIT, row.amount) &&
                db.entries[c] == LedgerEntry(row.id, row.receiverId, CREDIT, row.amount)
    {
      assert RowOk(db.rows[i], db);
      PostingsOf(db.rows, i);
      assert 2 * i in {2 * i} && 2 * i + 1 in {2 * i + 1};
    }
  }

  /**
   Exactly once per key, over any interleaving of calls and retries: no two committed rows share a key,
   whatever became of the calls that committed them, and every call that returns normally returns the row
   of its key.
   */
  lemma ExactlyOncePerKey(opening: seq<int>, s: State, steps: seq<Step>)
    requires Initial(opening, s)
    ensures var rows := Run(s, steps).db.rows;
            forall i, j :: 0 <= i < j < |rows| ==> rows[i].key != rows[j].key
    ensures var n := Run(s, steps);
            forall t :: 0 <= t < |n.calls| && n.calls[t].phase.Returned? ==>
              n.calls[t].phase.row in n.db.rows && n.calls[t].phase.row.key == n.calls[t].req.key
  {
    ReachableInv(opening, s, steps);
    var n := Run(s, steps);
    forall t | 0 <= t < |n.calls| && n.calls[t].phase.Returned?
      ensures n.calls[t].phase.row in n.db.rows && n.calls[t].phase.row.key == n.calls[t].req.key
    {
      assert CallOk(n, t);
    }
  }

  lemma StepAppends(s: State, step: Step)
    ensures s.db.rows <= Apply(s, step).db.rows && s.db.entries <= Apply(s, step).db.entries
  {
    if step.Advance? && step.t < |s.calls| && !s.calls[step.t].phase.Marked? {
      OnlyCommitChangesTables(s, step.t, Internal);
    }
  }

  /** Committed rows and entries are never changed or removed: a run only appends to them. */
  lemma {:induction false} CommittedStays(s: State, steps: seq<Step>)
    ensures s.db.rows <= Run(s, steps).db.rows && s.db.entries <= Run(s, steps).db.entries
    decreases steps
  {
    if steps != [] {
      StepAppends(s, steps[0]);
      CommittedStays(Apply(s, steps[0]), steps[1..]);
    }
  }

  /** Every committed row was asked for and paid by one call of its own */

  // The row says what call `t` requested, debits the requester and credits the requested account.
  predicate AskedBy(s: State, row: Transaction, t: nat) {
    t < |s.calls| &&
    var req := s.calls[t].req;
    && row.key == req.key && row.amount == req.amount && row.currency == req.currency
    && row.description == req.description && row.createdAt == req.at && row.senderId == req.senderId
    && Parties(s, req, row.receiverId)
  }

  // The call has left its database transaction for good.
  predicate Over(p: Phase) {
    p.Committed? || p.Returned? || p.Failed?
  }

  // The step takes a call into `Committed`.
  predicate Commits(s: State, step: Step) {
    step.Advance? && step.t < |s.calls| && !s.calls[step.t].phase.Committed? &&
    AdvanceCall(s, step.t).calls[step.t].phase.Committed?
  }

  // The calls that commit in the course of a run, in order.
  function Payers(s: State, steps: seq<Step>): seq<nat>
    decreases steps
  {
    if steps == [] then []
    else (if Commits(s, steps[0]) then [steps[0].t] else []) + Payers(Apply(s, steps[0]), steps[1..])
  }

  // The i-th row is what the i-th payer asked for, and no call has paid twice.
  ghost predicate Paid(s: State, payers: seq<nat>) {
    && |payers| == |s.db.rows|
    && (forall i :: 0 <= i < |payers| ==>
          AskedBy(s, s.db.rows[i], payers[i]) && Over(s.calls[payers[i]].phase))
    && (forall i, j :: 0 <= i < j < |payers| ==> payers[i] != payers[j])
  }

  lemma CommitsIsMarked(s: State, t: nat)
    requires t < |s.calls|
    ensures Commits(s, Advance(t)) <==> s.calls[t].phase.Marked?
  {}

  // Requests, owners and numbers never change, and what is over stays over.
  lemma StepKeepsAsked(opening: seq<int>, s: State, step: Step, row: Transaction, t: nat)
    requires Inv(opening, s) && AskedBy(s, row, t)
    ensures AskedBy(Apply(s, step), row, t)
    ensures Over(s.calls[t].phase) ==> Over(Apply(s, step).calls[t].phase)
  {
    match step {
      case AccountStep(q) =>
        AccountRequestMoney(s, q);
        var n := Apply(s, step);
        forall a | 0 <= a < |s.db.accounts|
          ensures n.db.accounts[a].userId == s.db.accounts[a].userId
          ensures n.db.accounts[a].number == s.db.accounts[a].number
        {
          assert n.db.accounts[..|s.db.accounts|][a] == n.db.accounts[a];
        }
      case Advance(u) =>
        if u < |s.calls| {
          AdvanceKeepsAsked(opening, s, u, row, t);
        }
      case _ =>
    }
  }

  lemma AdvanceKeepsAsked(opening: seq<int>, s: State, u: nat, row: Transaction, t: nat)
    requires Inv(opening, s) && AskedBy(s, row, t) && u < |s.calls|
    ensures AskedBy(AdvanceCall(s, u), row, t)
    ensures Over(s.calls[t].phase) ==> Over(AdvanceCall(s, u).calls[t].phase)
  {
    if s.calls[u].phase.Marked? {
      CommitEffect(opening, s, u);
    } else {
      OnlyCommitChangesTables(s, u, Internal);
    }
  }

  lemma StepKeepsPaid(opening: seq<int>, s: State, step: Step, payers: seq<nat>)
    requires Inv(opening, s) && Paid(s, payers)
    ensures Paid(Apply(s, step), payers + if Commits(s, step) then [step.t] else [])
  {
    var n := Apply(s, step);
    var more := payers + if Commits(s, step) then [step.t] else [];
    forall i | 0 <= i < |payers|
      ensures AskedBy(n, s.db.rows[i], payers[i]) && Over(n.calls[payers[i]].phase)
    {
      StepKeepsAsked(opening, s, step, s.db.rows[i], payers[i]);
    }
    if step.Advance? && step.t < |s.calls| {
      CommitsIsMarked(s, step.t);
      if s.calls[step.t].phase.Marked? {
        CommitIsPaid(opening, s, step.t);
      } else {
        OnlyCommitChangesTables(s, step.t, Internal);
      }
    }
  }

  lemma CommitIsPaid(opening: seq<int>, s: State, t: nat)
    requires Inv(opening, s) && t < |s.calls| && s.calls[t].phase.Marked?
    ensures var n := AdvanceCall(s, t);
            n.db.rows == s.db.rows + [s.calls[t].phase.saved] && AskedBy(n, s.calls[t].phase.saved, t)
  {
    assert CallOk(s, t);
    CommitEffect(opening, s, t);
  }

  lemma FirstPayer(s: State, steps: seq<Step>, payers: seq<nat>)
    requires steps != []
    ensures payers + Payers(s, steps) ==
            (payers + if Commits(s, steps[0]) then [steps[0].t] else []) + Payers(Apply(s, steps[0]), steps[1..])
  {
    var now, later := if Commits(s, steps[0]) then [steps[0].t] else [], Payers(Apply(s, steps[0]), steps[1..]);
    assert Payers(s, steps) == now + later;
    assert payers + (now + later) == payers + now + later;
  }

  lemma {:induction false} RunKeepsPaid(opening: seq<int>, s: State, steps: seq<Step>, payers: seq<nat>)
    requires Inv(opening, s) && Paid(s, payers)
    ensures Paid(Run(s, steps), payers + Payers(s, steps))
    decreases steps
  {
    if steps == [] {
      assert payers + [] == payers;
    } else {
      StepKeepsInv(opening, s, steps[0]);
      StepKeepsPaid(opening, s, steps[0], payers);
      var next, more := Apply(s, steps[0]), payers + if Commits(s, steps[0]) then [steps[0].t] else [];
      RunKeepsPaid(opening, next, steps[1..], more);
      FirstPayer(s, steps, payers);
    }
  }

  /**
   Money moves only as asked: in every reachable state the committed rows are, one by one, what the calls
   that committed had requested, from an account of the requester to the account with the requested
   number; and no call pays twice.
   */
  lemma CommittedAsRequested(opening: seq<int>, s: State, steps: seq<Step>)
    requires Initial(opening, s)
    ensures var n, payers := Run(s, steps), Payers(s, steps);
            && |payers| == |n.db.rows|
            && (forall i :: 0 <= i < |payers| ==> AskedBy(n, n.db.rows[i], payers[i]))
            && (forall i, j :: 0 <= i < j < |payers| ==> payers[i] != payers[j])
  {
    assert Inv(opening, s);
    RunKeepsPaid(opening, s, steps, []);
    assert [] + Payers(s, steps) == Payers(s, steps);
  }

  lemma {:induction false} PayerHasCommitted(s: State, steps: seq<Step>, t: nat) returns (k: nat)
    requires t in Payers(s, steps)
    ensures k <= |steps|
    ensures var m := Run(s, steps[..k]); t < |m.calls| && m.calls[t].phase.Committed?
    decreases steps
  {
    if Commits(s, steps[0]) && t == steps[0].t {
      k := 1;
      assert steps[..1][1..] == [];
    } else {
      var later := PayerHasCommitted(Apply(s, steps[0]), steps[1..], t);
      k := later + 1;
      assert steps[..k][1..] == steps[1..][..later];
    }
  }

  /**
   Atomicity of one call, whatever the others do: a call that at no moment of the run stands committed
   has paid for none of the rows, and the entries are the postings of these rows: it left nothing.
   */
  lemma UncommittedCallOwnsNothing(opening: seq<int>, s: State, steps: seq<Step>, t: nat)
    requires Initial(opening, s)
    requires forall k :: 0 <= k <= |steps| && t < |Run(s, steps[..k]).calls| ==>
               !Run(s, steps[..k]).calls[t].phase.Committed?
    ensures var n, payers := Run(s, steps), Payers(s, steps);
            |payers| == |n.db.rows| && n.db.entries == Postings(n.db.rows) &&
            forall i :: 0 <= i < |payers| ==> payers[i] != t && AskedBy(n, n.db.rows[i], payers[i])
  {
    CommittedAsRequested(opening, s, steps);
    ReachableInv(opening, s, steps);
    if t in Payers(s, steps) {
      var k := PayerHasCommitted(s, steps, t);
      assert false;
    }
  }

  lemma {:induction false} WithBalancesTotal(accounts: seq<Account>, b: nat, x: int, c: nat, y: int)
    requires b < |accounts| && c < |accounts| && b != c
    ensures Total(WithBalances(accounts, map[b := x, c := y])) ==
            Total(accounts) - accounts[b].balance + x - accounts[c].balance + y
  {
    var once := accounts[b := accounts[b].(balance := x)];
    assert WithBalances(accounts, map[b := x, c := y]) == once[c := once[c].(balance := y)];
    SumUpdate(Balance, accounts, b, accounts[b].(balance := x));
    SumUpdate(Balance, once, c, once[c].(balance := y));
  }

  lemma MarkedCall(opening: seq<int>, s: State, t: nat)
    requires Inv(opening, s) && t < |s.calls| && s.calls[t].phase.Marked?
    ensures var saved := s.calls[t].phase.saved;
            Parties(s, s.calls[t].req, saved.receiverId) && BalancesWritten(s, t, saved)
  {
    assert CallOk(s, t);
  }

  lemma MarkedWrites(opening: seq<int>, s: State, t: nat)
    requires Inv(opening, s) && t < |s.calls| && s.calls[t].phase.Marked?
    ensures var b, c, amount := s.calls[t].req.senderId, s.calls[t].phase.saved.receiverId, s.calls[t].req.amount;
            && amount > 0 && b < |s.db.accounts| && c < |s.db.accounts| && b != c
            && s.calls[t].writes.balances ==
               map[b := s.db.accounts[b].balance - amount, c := s.db.accounts[c].balance + amount]
  {
    assert CallOk(s, t);
  }

  lemma CommitKeepsTotal(opening: seq<int>, s: State, t: nat)
    requires Inv(opening, s) && t < |s.calls| && s.calls[t].phase.Marked?
    ensures Total(Commit(s, t, s.calls[t].phase.saved).db.accounts) == Total(s.db.accounts)
  {
    MarkedWrites(opening, s, t);
    var b, c, amount := s.calls[t].req.senderId, s.calls[t].phase.saved.receiverId, s.calls[t].req.amount;
    var x, y := s.db.accounts[b].balance - amount, s.db.accounts[c].balance + amount;
    assert Commit(s, t, s.calls[t].phase.saved).db.accounts == WithBalances(s.db.accounts, map[b := x, c := y]);
    WithBalancesTotal(s.db.accounts, b, x, c, y);
  }

  lemma StepKeepsTotal(opening: seq<int>, s: State, step: Step)
    requires Inv(opening, s)
    ensures Total(Apply(s, step).db.accounts) == Total(s.db.accounts)
  {
    match step {
      case AccountStep(q) => Accounts.HandleKeepsTotal(s.db.accounts, q);
      case Advance(t) =>
        if t < |s.calls| {
          if s.calls[t].phase.Marked? {
            CommitKeepsTotal(opening, s, t);
          } else {
            OnlyCommitChangesTables(s, t, Internal);
          }
        }
      case _ =>
    }
  }

  /** No run of transfers, account creations and account updates makes or destroys money. */
  lemma {:induction false} MoneyIsConserved(opening: seq<int>, s: State, steps: seq<Step>)
    requires Inv(opening, s)
    ensures Total(Run(s, steps).db.accounts) == Total(s.db.accounts)
    decreases steps
  {
    if steps != [] {
      StepKeepsTotal(opening, s, steps[0]);
      StepKeepsInv(opening, s, steps[0]);
      MoneyIsConserved(opening, Apply(s, steps[0]), steps[1..]);
    }
  }

  /** Each currency by itself */

  function BalanceIn(currency: Currency): Account -> int {
    (a: Account) => if a.currency == currency then a.balance else 0
  }

  function TotalIn(accounts: seq<Account>, currency: Currency): int {
    Sum(BalanceIn(currency), accounts)
  }

  lemma WithBalancesTotalIn(accounts: seq<Account>, b: nat, x: int, c: nat, y: int, currency: Currency)
    requires b < |accounts| && c < |accounts| && b != c
    ensures TotalIn(WithBalances(accounts, map[b := x, c := y]), currency) ==
            TotalIn(accounts, currency)
            + (if accounts[b].currency == currency then x - accounts[b].balance else 0)
            + (if accounts[c].currency == currency then y - accounts[c].balance else 0)
  {
    var once := accounts[b := accounts[b].(balance := x)];
    assert WithBalances(accounts, map[b := x, c := y]) == once[c := once[c].(balance := y)];
    SumUpdate(BalanceIn(currency), accounts, b, accounts[b].(balance := x));
    SumUpdate(BalanceIn(currency), once, c, once[c].(balance := y));
  }

  lemma WrittenTotalIn(s: State, t: nat, b: nat, x: int, c: nat, y: int, currency: Currency)
    requires t < |s.calls| && b < |s.db.accounts| && c < |s.db.accounts| && b != c
    requires s.calls[t].phase.Marked? && s.calls[t].writes.balances == map[b := x, c := y]
    ensures TotalIn(Commit(s, t, s.calls[t].phase.saved).db.accounts, currency) ==
            TotalIn(s.db.accounts, currency)
            + (if s.db.accounts[b].currency == currency then x - s.db.accounts[b].balance else 0)
            + (if s.db.accounts[c].currency == currency then y - s.db.accounts[c].balance else 0)
  {
    WithBalancesTotalIn(s.db.accounts, b, x, c, y, currency);
  }

  lemma CommitTotalIn(opening: seq<int>, s: State, t: nat, currency: Currency)
    requires Inv(opening, s) && t < |s.calls| && s.calls[t].phase.Marked?
    requires s.calls[t].req.senderId < |s.db.accounts| && s.calls[t].phase.saved.receiverId < |s.db.accounts|
    ensures var b, c, amount := s.calls[t].req.senderId, s.calls[t].phase.saved.receiverId, s.calls[t].req.amount;
            TotalIn(Commit(s, t, s.calls[t].phase.saved).db.accounts, currency) ==
            TotalIn(s.db.accounts, currency)
            - (if s.db.accounts[b].currency == currency then amount else 0)
            + (if s.db.accounts[c].currency == currency then amount else 0)
  {
    MarkedWrites(opening, s, t);
    var b, c, amount := s.calls[t].req.senderId, s.calls[t].phase.saved.receiverId, s.calls[t].req.amount;
    WrittenTotalIn(s, t, b, s.db.accounts[b].balance - amount, c, s.db.accounts[c].balance + amount, currency);
  }

  lemma {:induction false} SameMoneyTotalIn(a: seq<Account>, b: seq<Account>, currency: Currency)
    requires Accounts.SameMoney(a, b)
    ensures TotalIn(a, currency) == TotalIn(b, currency)
  {
    if a != [] {
      SameMoneyTotalIn(a[1..], b[1..], currency);
    }
  }

  lemma {:induction false} EmptyTotalIn(accounts: seq<Account>, currency: Currency)
    requires forall i :: 0 <= i < |accounts| ==> accounts[i].balance == 0
    ensures TotalIn(accounts, currency) == 0
  {
    if accounts != [] {
      EmptyTotalIn(accounts[1..], currency);
    }
  }

  lemma HandleKeepsTotalIn(s: State, q: Accounts.AccountRequest, currency: Currency)
    ensures TotalIn(Accounts.Handle(s.db.accounts, q), currency) == TotalIn(s.db.accounts, currency)
  {
    var old', r := s.db.accounts, Accounts.Handle(s.db.accounts, q);
    AccountRequestMoney(s, q);
    assert r == r[..|old'|] + r[|old'|..];
    SumConcat(BalanceIn(currency), r[..|old'|], r[|old'|..]);
    SameMoneyTotalIn(old', r[..|old'|], currency);
    EmptyTotalIn(r[|old'|..], currency);
  }

  // What one row moves into a currency: its amount if it is the receiver's, less the amount if the sender's.
  function Moves(accounts: seq<Account>, currency: Currency): Transaction -> int {
    (row: Transaction) =>
      (if row.receiverId < |accounts| && accounts[row.receiverId].currency == currency then row.amount else 0) -
      (if row.senderId < |accounts| && accounts[row.senderId].currency == currency then row.amount else 0)
  }

  function Drift(accounts: seq<Account>, rows: seq<Transaction>, currency: Currency): int {
    Sum(Moves(accounts, currency), rows)
  }

  // Accounts are added, and none changes its currency.
  predicate CurrenciesStay(a: seq<Account>, b: seq<Account>) {
    |a| <= |b| && forall i :: 0 <= i < |a| ==> b[i].currency == a[i].currency
  }

  predicate Covers(accounts: seq<Account>, rows: seq<Transaction>) {
    forall i :: 0 <= i < |rows| ==> rows[i].senderId < |accounts| && rows[i].receiverId < |accounts|
  }

  lemma {:induction false} SameDrift(a: seq<Account>, b: seq<Account>, rows: seq<Transaction>, currency: Currency)
    requires CurrenciesStay(a, b) && Covers(a, rows)
    ensures Drift(a, rows, currency) == Drift(b, rows, currency)
    decreases rows
  {
    if rows != [] {
      SameDrift(a, b, rows[1..], currency);
    }
  }

  lemma RowsCovered(opening: seq<int>, s: State)
    requires Inv(opening, s)
    ensures Covers(s.db.accounts, s.db.rows)
  {
    forall i | 0 <= i < |s.db.rows|
      ensures s.db.rows[i].senderId < |s.db.accounts| && s.db.rows[i].receiverId < |s.db.accounts|
    {
      assert RowOk(s.db.rows[i], s.db);
    }
  }

  lemma StepKeepsCurrencies(opening: seq<int>, s: State, step: Step)
    requires Inv(opening, s)
    ensures CurrenciesStay(s.db.accounts, Apply(s, step).db.accounts)
  {
    match step {
      case AccountStep(q) =>
        AccountRequestMoney(s, q);
        var n := Apply(s, step);
        forall a | 0 <= a < |s.db.accounts|
          ensures n.db.accounts[a].currency == s.db.accounts[a].currency
        {
          assert n.db.accounts[..|s.db.accounts|][a] == n.db.accounts[a];
        }
      case Advance(t) =>
        if t < |s.calls| {
          if s.calls[t].phase.Marked? {
            CommitEffect(opening, s, t);
          } else {
            OnlyCommitChangesTables(s, t, Internal);
          }
        }
      case _ =>
    }
  }

  lemma {:induction false} RunKeepsCurrencies(opening: seq<int>, s: State, steps: seq<Step>)
    requires Inv(opening, s)
    ensures CurrenciesStay(s.db.accounts, Run(s, steps).db.accounts)
    decreases steps
  {
    if steps != [] {
      StepKeepsCurrencies(opening, s, steps[0]);
      StepKeepsInv(opening, s, steps[0]);
      RunKeepsCurrencies(opening, Apply(s, steps[0]), steps[1..]);
    }
  }

  lemma CommitMoves(opening: seq<int>, s: State, t: nat, currency: Currency)
    requires Inv(opening, s) && t < |s.calls| && s.calls[t].phase.Marked?
    ensures var saved, n := s.calls[t].phase.saved, AdvanceCall(s, t);
            && n.db.rows == s.db.rows + [saved]
            && TotalIn(n.db.accounts, currency) ==
               TotalIn(s.db.accounts, currency) + Moves(s.db.accounts, currency)(saved)
  {
    CommitRows(opening, s, t);
    CommitIsNext(s, t);
    MarkedRow(opening, s, t);
    CommitTotalIn(opening, s, t, currency);
  }

  lemma CommitRows(opening: seq<int>, s: State, t: nat)
    requires Inv(opening, s) && t < |s.calls| && s.calls[t].phase.Marked?
    ensures AdvanceCall(s, t).db.rows == s.db.rows + [s.calls[t].phase.saved]
  {
    CommitEffect(opening, s, t);
  }

  lemma CommitIsNext(s: State, t: nat)
    requires t < |s.calls| && s.calls[t].phase.Marked?
    ensures AdvanceCall(s, t) == Commit(s, t, s.calls[t].phase.saved)
  {}

  lemma MarkedRow(opening: seq<int>, s: State, t: nat)
    requires Inv(opening, s) && t < |s.calls| && s.calls[t].phase.Marked?
    ensures var req, saved := s.calls[t].req, s.calls[t].phase.saved;
            && saved.senderId == req.senderId < |s.db.accounts| && saved.receiverId < |s.db.accounts|
            && saved.amount == req.amount
  {
    assert CallOk(s, t);
  }

  // A total less the drift of the rows.
  function Base(db: Database, currency: Currency): int {
    TotalIn(db.accounts, currency) - Drift(db.accounts, db.rows, currency)
  }

  lemma CommitKeepsBase(opening: seq<int>, s: State, t: nat, currency: Currency)
    requires Inv(opening, s) && t < |s.calls| && s.calls[t].phase.Marked?
    ensures Base(AdvanceCall(s, t).db, currency) == Base(s.db, currency)
  {
    var n, saved := AdvanceCall(s, t), s.calls[t].phase.saved;
    CommitMoves(opening, s, t, currency);
    StepKeepsCurrencies(opening, s, Advance(t));
    RowsCovered(opening, s);
    MarkedRow(opening, s, t);
    SumAppend(Moves(s.db.accounts, currency), s.db.rows, saved);
    SameDrift(s.db.accounts, n.db.accounts, s.db.rows + [saved], currency);
  }

  lemma StepKeepsBase(opening: seq<int>, s: State, step: Step, currency: Currency)
    requires Inv(opening, s)
    ensures Base(Apply(s, step).db, currency) == Base(s.db, currency)
  {
    match step {
      case AccountStep(q) =>
        HandleKeepsTotalIn(s, q, currency);
        StepKeepsCurrencies(opening, s, step);
        RowsCovered(opening, s);
        SameDrift(s.db.accounts, Apply(s, step).db.accounts, s.db.rows, currency);
      case Advance(t) =>
        if t < |s.calls| {
          if s.calls[t].phase.Marked? {
            CommitKeepsBase(opening, s, t, currency);
          } else {
            OnlyCommitChangesTables(s, t, Internal);
          }
        }
      case _ =>
    }
  }

  lemma {:induction false} RunKeepsBase(opening: seq<int>, s: State, steps: seq<Step>, currency: Currency)
    requires Inv(opening, s)
    ensures Base(Run(s, steps).db, currency) == Base(s.db, currency)
    decreases steps
  {
    if steps != [] {
      StepKeepsBase(opening, s, steps[0], currency);
      StepKeepsInv(opening, s, steps[0]);
      RunKeepsBase(opening, Apply(s, steps[0]), steps[1..], currency);
    }
  }

  /**
   What becomes of one currency in any run, exactly: its total changes by the amounts that the rows committed
   in the run carry into it, less those they carry out of it.
   */
  lemma CurrencyDrift(opening: seq<int>, s: State, steps: seq<Step>, currency: Currency)
    requires Inv(opening, s)
    ensures var n := Run(s, steps);
            s.db.rows <= n.db.rows &&
            TotalIn(n.db.accounts, currency) ==
            TotalIn(s.db.accounts, currency) + Drift(n.db.accounts, n.db.rows[|s.db.rows|..], currency)
  {
    var n := Run(s, steps);
    RunKeepsBase(opening, s, steps, currency);
    RunKeepsCurrencies(opening, s, steps);
    CommittedStays(s, steps);
    RowsCovered(opening, s);
    SameDrift(s.db.accounts, n.db.accounts, s.db.rows, currency);
    SumConcat(Moves(n.db.accounts, currency), s.db.rows, n.db.rows[|s.db.rows|..]);
    assert s.db.rows + n.db.rows[|s.db.rows|..] == n.db.rows;
  }

  predicate OneCurrency(accounts: seq<Account>, row: Transaction)
    requires row.senderId < |accounts| && row.receiverId < |accounts|
  {
    accounts[row.senderId].currency == accounts[row.receiverId].currency
  }

  // Every row from position `k` on joins two accounts of one currency.
  predicate OneCurrencyFrom(db: Database, k: nat) {
    forall i :: k <= i < |db.rows| ==>
      db.rows[i].senderId < |db.accounts| && db.rows[i].receiverId < |db.accounts| &&
      OneCurrency(db.accounts, db.rows[i])
  }

  ghost predicate SameTotals(a: Database, b: Database) {
    forall currency: Currency :: TotalIn(a.accounts, currency) == TotalIn(b.accounts, currency)
  }

  // No step of the run changes the total of any currency.
  ghost predicate AlwaysKept(s: State, steps: seq<Step>)
    decreases steps
  {
    steps != [] ==> SameTotals(s.db, Apply(s, steps[0]).db) && AlwaysKept(Apply(s, steps[0]), steps[1..])
  }

  lemma CommitKeptIff(opening: seq<int>, s: State, t: nat)
    requires Inv(opening, s) && t < |s.calls| && s.calls[t].phase.Marked?
    ensures SameTotals(s.db, AdvanceCall(s, t).db) <==> OneCurrencyFrom(AdvanceCall(s, t).db, |s.db.rows|)
  {
    var n, saved := AdvanceCall(s, t), s.calls[t].phase.saved;
    MarkedRow(opening, s, t);
    MarkedWrites(opening, s, t);
    StepKeepsCurrencies(opening, s, Advance(t));
    CommitMoves(opening, s, t, s.db.accounts[saved.senderId].currency);
    forall currency: Currency {
      CommitMoves(opening, s, t, currency);
    }
    assert n.db.rows[|s.db.rows|] == saved;
  }

  lemma StepKeptIff(opening: seq<int>, s: State, step: Step)
    requires Inv(opening, s)
    ensures SameTotals(s.db, Apply(s, step).db) <==> OneCurrencyFrom(Apply(s, step).db, |s.db.rows|)
  {
    match step {
      case AccountStep(q) =>
        forall currency: Currency {
          HandleKeepsTotalIn(s, q, currency);
        }
      case Advance(t) =>
        if t < |s.calls| {
          if s.calls[t].phase.Marked? {
            CommitKeptIff(opening, s, t);
          } else {
            OnlyCommitChangesTables(s, t, Internal);
          }
        }
      case _ =>
    }
  }

  // Whether the rows up to here join one currency each is settled.
  lemma SameKind(m: Database, n: Database, k: nat)
    requires CurrenciesStay(m.accounts, n.accounts) && Covers(m.accounts, m.rows) && m.rows <= n.rows && k <= |m.rows|
    ensures OneCurrencyFrom(n, k) <==> OneCurrencyFrom(m, k) && OneCurrencyFrom(n, |m.rows|)
  {
    forall i | k <= i < |m.rows|
      ensures n.rows[i] == m.rows[i] && OneCurrency(n.accounts, m.rows[i]) == OneCurrency(m.accounts, m.rows[i])
    {
      assert m.rows[i].senderId < |m.accounts| && m.rows[i].receiverId < |m.accounts|;
    }
  }

  /** The total of every currency stays put throughout a run if and only if each row it commits is in one currency. */
  lemma {:induction false} CurrenciesConservedIff(opening: seq<int>, s: State, steps: seq<Step>)
    requires Inv(opening, s)
    ensures AlwaysKept(s, steps) <==> OneCurrencyFrom(Run(s, steps).db, |s.db.rows|)
    decreases steps
  {
    if steps != [] {
      var m := Apply(s, steps[0]);
      StepKeptIff(opening, s, steps[0]);
      StepKeepsInv(opening, s, steps[0]);
      CurrenciesConservedIff(opening, m, steps[1..]);
      RowsCovered(opening, m);
      RunKeepsCurrencies(opening, m, steps[1..]);
      CommittedStays(m, steps[1..]);
      StepAppends(s, steps[0]);
      SameKind(m.db, Run(m, steps[1..]).db, |s.db.rows|);
    }
  }

  /**
   Atomicity up to the commit: a transfer's step changes the committed tables only when it takes
   the call into `Committed`; a call that fails before that has changed nothing.
   */
  lemma OnlyCommitChangesTables(s: State, t: nat, error: Error)
    requires t < |s.calls|
    ensures AdvanceCall(s, t).db != s.db ==>
              s.calls[t].phase.Marked? && AdvanceCall(s, t).calls[t].phase.Committed?
    ensures AbortCall(s, t, error).db == s.db
  {}
}
