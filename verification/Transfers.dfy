/**
 One transfer at a time: the service rewriting its tables statement by statement, with
 rollback, and what one whole call does.
 */
module Transfers {
  import opened Wrappers
  import opened Ledger

  /** What one call does when nothing else runs */

  // The checks made before anything is written; yields the receiving account.
  function Checks(db: Database, req: Request): Result<nat> {
    if req.senderId >= |db.accounts| then Err(NotFound)
    else if db.accounts[req.senderId].userId != req.userId then Err(BadRequest)
    else
      match AccountByNumber(db.accounts, req.receiverNumber)
      case None => Err(NotFound)
      case Some(receiver) =>
        if req.senderId == receiver then Err(BadRequest)
        else if db.accounts[req.senderId].balance < req.amount then Err(BadRequest)
        else Ok(receiver)
  }

  function Row(req: Request, id: nat, receiver: nat): Transaction {
    Transaction(id, req.senderId, receiver, req.amount, req.currency, req.description, req.key, SUCCESS, req.at)
  }

  function Credit(accounts: seq<Account>, a: nat, amount: int): seq<Account>
    requires a < |accounts|
  {
    accounts[a := accounts[a].(balance := accounts[a].balance + amount)]
  }

  // The tables after a committed transfer.
  function Moved(db: Database, req: Request, id: nat, receiver: nat): Database
    requires req.senderId < |db.accounts| && receiver < |db.accounts|
  {
    var row := Row(req, id, receiver);
    Database(Credit(Credit(db.accounts, req.senderId, -req.amount), receiver, req.amount),
             db.rows + [row], db.entries + Posting(row))
  }

  function TransferAlone(db: Database, id: nat, req: Request): (Database, Result<Transaction>) {
    var existing := RowByKey(db.rows, req.key);
    if existing.Some? && existing.value.status == SUCCESS then (db, Ok(existing.value))
    else if existing.Some? && existing.value.status == PENDING then (db, Err(Conflict))
    else if existing.Some? && existing.value.status == FAILED then (db, Err(BadRequest))
    else
      match Checks(db, req)
      case Err(error) => (db, Err(error))
      case Ok(receiver) =>
        if existing.Some? then (db, Err(Conflict))
        else (Moved(db, req, id, receiver), Ok(Row(req, id, receiver)))
  }

  /** A retry with the same key returns the first call's row and moves nothing. */
  lemma RetryIsIdempotent(db: Database, id: nat, req: Request, laterId: nat, retry: Request)
    requires TransferAlone(db, id, req).1.Ok? && retry.key == req.key
    ensures var (after, result) := TransferAlone(db, id, req); TransferAlone(after, laterId, retry) == (after, result)
  {
    var (after, result) := TransferAlone(db, id, req);
    if RowByKey(db.rows, req.key).None? {
      RowByKeyAppended(db.rows, result.value);
    }
  }

  lemma {:induction false} RowByKeyAppended(rows: seq<Transaction>, row: Transaction)
    requires RowByKey(rows, row.key).None?
    ensures RowByKey(rows + [row], row.key) == Some(row)
  {
    if rows != [] {
      assert rows[0] in rows;
      assert (rows + [row])[1..] == rows[1..] + [row];
      RowByKeyAppended(rows[1..], row);
    }
  }

  lemma CreditTotal(accounts: seq<Account>, a: nat, amount: int)
    requires a < |accounts|
    ensures Total(Credit(accounts, a, amount)) == Total(accounts) + amount
  {
    SumUpdate(Balance, accounts, a, accounts[a].(balance := accounts[a].balance + amount));
  }

  // The requester owns the sending account, and it covers the amount.
  predicate CanPay(db: Database, req: Request) {
    && req.senderId < |db.accounts| && db.accounts[req.senderId].userId == req.userId
    && db.accounts[req.senderId].balance >= req.amount
  }

  // The first account with the requested number.
  predicate IsReceiver(db: Database, req: Request, r: nat) {
    r < |db.accounts| && db.accounts[r].number == req.receiverNumber &&
    forall a :: 0 <= a < r ==> db.accounts[a].number != req.receiverNumber
  }

  lemma ReceiverFound(db: Database, req: Request)
    ensures var found := AccountByNumber(db.accounts, req.receiverNumber);
            if found.Some? then IsReceiver(db, req, found.value)
            else forall r: nat :: !IsReceiver(db, req, r)
  {
    FirstIndex(db.accounts, (a: Account) => a.number == req.receiverNumber);
  }

  /**
   Which transfers of a new key are accepted: exactly those from an own account that covers the amount to
   another account. Not found is the answer for a missing sender, or for a missing receiver when the sender is
   the requester's own; everything else is a bad request. A refused transfer changes nothing.
   */
  lemma AcceptedIff(db: Database, id: nat, req: Request)
    requires forall i :: 0 <= i < |db.rows| ==> db.rows[i].key != req.key
    ensures var (n, result) := TransferAlone(db, id, req);
            && (result.Ok? <==> CanPay(db, req) && exists r: nat :: IsReceiver(db, req, r) && r != req.senderId)
            && (result == Err(NotFound) <==>
                  req.senderId >= |db.accounts| ||
                  (db.accounts[req.senderId].userId == req.userId && forall r: nat :: !IsReceiver(db, req, r)))
            && (result.Ok? || result == Err(NotFound) || (result == Err(BadRequest) && n == db))
            && (result.Err? ==> n == db)
  {
    ReceiverFound(db, req);
    var found := AccountByNumber(db.accounts, req.receiverNumber);
    forall r: nat | IsReceiver(db, req, r)
      ensures found == Some(r)
    {
      assert found.Some? && IsReceiver(db, req, found.value);
    }
  }

  /** What an accepted transfer of a new key does to each row of each table. */
  lemma AcceptedMoves(db: Database, id: nat, req: Request, r: nat)
    requires forall i :: 0 <= i < |db.rows| ==> db.rows[i].key != req.key
    requires CanPay(db, req) && IsReceiver(db, req, r) && r != req.senderId
    ensures var (n, result) := TransferAlone(db, id, req);
            && result == Ok(Transaction(id, req.senderId, r, req.amount, req.currency, req.description, req.key,
                                        SUCCESS, req.at))
            && n.rows == db.rows + [result.value]
            && n.entries == db.entries + [LedgerEntry(id, req.senderId, DEBIT, req.amount),
                                          LedgerEntry(id, r, CREDIT, req.amount)]
            && |n.accounts| == |db.accounts|
            && forall a :: 0 <= a < |n.accounts| ==>
                 n.accounts[a] == db.accounts[a].(balance := db.accounts[a].balance +
                   if a == req.senderId then -req.amount else if a == r then req.amount else 0)
  {
    ReceiverFound(db, req);
  }

  /** Serially, a transfer conserves money and never overdraws. */
  lemma TransferKeepsMoney(db: Database, id: nat, req: Request)
    ensures Total(TransferAlone(db, id, req).0.accounts) == Total(db.accounts)
    ensures req.amount >= 0 && (forall a :: 0 <= a < |db.accounts| ==> db.accounts[a].balance >= 0) ==>
              var after := TransferAlone(db, id, req).0.accounts;
              |after| == |db.accounts| && forall a :: 0 <= a < |after| ==> after[a].balance >= 0
  {
    var checks := Checks(db, req);
    if checks.Ok? {
      var once := Credit(db.accounts, req.senderId, -req.amount);
      CreditTotal(db.accounts, req.senderId, -req.amount);
      CreditTotal(once, checks.value, req.amount);
    }
  }

  /** The service */

  // Where, if anywhere, a statement throws: the n-th one of the database transaction, or one after the commit.
  datatype Fault = NoFault | BeforeCommit(at: nat) | AfterCommit

  class TransactionsService {
    var accounts: seq<Account>
    var rows: seq<Transaction>
    var entries: seq<LedgerEntry>
    var nextId: nat

    constructor (db: Database, nextId: nat)
      ensures Db() == db && this.nextId == nextId
    {
      accounts, rows, entries := db.accounts, db.rows, db.entries;
      this.nextId := nextId;
    }

    function Db(): Database
      reads this
    {
      Database(accounts, rows, entries)
    }

    // Restores the tables as they were when the database transaction started.
    method Rollback(snapshot: Database)
      modifies this`accounts, this`rows, this`entries
      ensures Db() == snapshot
    {
      accounts, rows, entries := snapshot.accounts, snapshot.rows, snapshot.entries;
    }

    method UpdateBalance(accountId: nat, amount: int) returns (r: Result<Account>)
      modifies this`accounts
      ensures accountId < |old(accounts)| ==>
                accounts == Credit(old(accounts), accountId, amount) && r == Ok(accounts[accountId])
      ensures accountId >= |old(accounts)| ==> accounts == old(accounts) && r == Err(NotFound)
    {
      if accountId >= |accounts| {
        return Err(NotFound);
      }
      var account := accounts[accountId];
      account := account.(balance := account.balance + amount);
      accounts := accounts[accountId := account];
      r := Ok(account);
    }

    method Transfer(req: Request, fault: Fault) returns (r: Result<Transaction>)
      modifies this
      // Without a fault, and whenever the call returns normally, it does exactly one serial transfer.
      ensures fault.NoFault? || r.Ok? ==> (Db(), r) == TransferAlone(old(Db()), old(nextId), req)
      // Any failure up to the commit leaves the tables as they were.
      ensures r.Err? && !fault.AfterCommit? ==> Db() == old(Db())
      ensures nextId == old(nextId) || nextId == old(nextId) + 1
      ensures Db() != old(Db()) ==> nextId == old(nextId) + 1
      // A failure after the commit reports an error although the money has moved.
      ensures fault.AfterCommit? ==> Db() == TransferAlone(old(Db()), old(nextId), req).0
      // With a new key no fault goes unreported.
      ensures (forall i :: 0 <= i < |old(rows)| ==> old(rows)[i].key != req.key) ==>
                (fault.BeforeCommit? && fault.at <= 7) || fault.AfterCommit? ==> r.Err?
    {
      var existingTx := RowByKey(rows, req.key);
      if existingTx.Some? {
        if existingTx.value.status == SUCCESS {
          return Ok(existingTx.value);
        }
        if existingTx.value.status == PENDING {
          return Err(Conflict);
        }
        if existingTx.value.status == FAILED {
          return Err(BadRequest);
        }
      }
      var snapshot := Db();
      if fault == BeforeCommit(0) {
        return Err(Internal);
      }
      if req.senderId >= |accounts| {
        return Err(NotFound);
      }
      var senderAccount := accounts[req.senderId];
      if senderAccount.userId != req.userId {
        return Err(BadRequest);
      }
      if fault == BeforeCommit(1) {
        return Err(Internal);
      }
      var receiver := AccountByNumber(accounts, req.receiverNumber);
      if receiver.None? {
        return Err(NotFound);
      }
      if req.senderId == receiver.value {
        return Err(BadRequest);
      }
      if senderAccount.balance < req.amount {
        return Err(BadRequest);
      }
      if fault == BeforeCommit(2) {
        return Err(Internal);
      }
      // The unique index on the key rejects a second row.
      if RowByKey(rows, req.key).Some? {
        return Err(Conflict);
      }
      var savedTransaction := Row(req, nextId, receiver.value).(status := PENDING);
      nextId := nextId + 1;
      rows := rows + [savedTransaction];
      if fault == BeforeCommit(3) {
        Rollback(snapshot);
        return Err(Internal);
      }
      var debited := UpdateBalance(req.senderId, -req.amount);
      if debited.Err? || fault == BeforeCommit(4) {
        Rollback(snapshot);
        return Err(Internal);
      }
      var credited := UpdateBalance(receiver.value, req.amount);
      if credited.Err? || fault == BeforeCommit(5) {
        Rollback(snapshot);
        return Err(Internal);
      }
      entries := entries + [LedgerEntry(savedTransaction.id, req.senderId, DEBIT, req.amount),
                            LedgerEntry(savedTransaction.id, receiver.value, CREDIT, req.amount)];
      if fault == BeforeCommit(6) {
        Rollback(snapshot);
        return Err(Internal);
      }
      savedTransaction := savedTransaction.(status := SUCCESS);
      rows := rows[|rows| - 1 := savedTransaction];
      assert rows == snapshot.rows + [savedTransaction];
      assert entries == snapshot.entries + Posting(savedTransaction);
      if fault == BeforeCommit(7) {
        Rollback(snapshot);
        return Err(Internal);
      }
      if fault.AfterCommit? {
        return Err(Internal);
      }
      return Ok(savedTransaction);
    }
  }
}
