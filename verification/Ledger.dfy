/**
 The rows of the money tables and the sums that every money property is about.

 Identifiers are positions in a table, money is an integer number of 1/10000 units,
 the smallest step of the decimal(20,4) columns.
 */
module Ledger {
  import opened Wrappers

  datatype Result<+T> = Ok(value: T) | Err(error: Error)

  // The exceptions a money operation can end with.
  datatype Error = Conflict | BadRequest | NotFound | Internal

  datatype Currency = VND | USD

  datatype Account = Account(userId: nat, number: string, name: string, isPrimary: bool,
                             currency: Currency, balance: int)

  datatype Status = PENDING | SUCCESS | FAILED | CANCELLED

  datatype Transaction = Transaction(id: nat, senderId: nat, receiverId: nat, amount: int,
                                     currency: Currency, description: string, key: string,
                                     status: Status, createdAt: int)

  datatype EntryType = DEBIT | CREDIT

  datatype LedgerEntry = LedgerEntry(transactionId: nat, accountId: nat, kind: EntryType, amount: int)

  datatype Database = Database(accounts: seq<Account>, rows: seq<Transaction>, entries: seq<LedgerEntry>)

  // What a caller of `transfer` supplies. `at` is the time its database transaction starts.
  datatype Request = Request(userId: nat, key: string, senderId: nat, receiverNumber: string, amount: int,
                             currency: Currency, description: string, at: int)

  // The smallest amount the request validation admits: 1000, in units of 1/10000.
  const MIN_AMOUNT := 10_000_000

  predicate Admissible(req: Request) {
    req.amount >= MIN_AMOUNT && req.key != ""
  }

  /** Money held, and money posted */

  function Balance(a: Account): int {
    a.balance
  }

  function Total(accounts: seq<Account>): int {
    Sum(Balance, accounts)
  }

  function Effect(e: LedgerEntry, a: nat): int {
    if e.accountId != a then 0 else if e.kind == CREDIT then e.amount else -e.amount
  }

  // CREDIT entries minus DEBIT entries of account `a`.
  function Net(entries: seq<LedgerEntry>, a: nat): int {
    if entries == [] then 0 else Net(entries[..|entries| - 1], a) + Effect(entries[|entries| - 1], a)
  }

  lemma {:induction false} NetConcat(s: seq<LedgerEntry>, t: seq<LedgerEntry>, a: nat)
    ensures Net(s + t, a) == Net(s, a) + Net(t, a)
  {
    if t == [] {
      assert s + t == s;
    } else {
      assert (s + t)[..|s + t| - 1] == s + t[..|t| - 1];
      NetConcat(s, t[..|t| - 1], a);
    }
  }

  // The double entry of one transaction.
  function Posting(row: Transaction): seq<LedgerEntry> {
    [LedgerEntry(row.id, row.senderId, DEBIT, row.amount), LedgerEntry(row.id, row.receiverId, CREDIT, row.amount)]
  }

  // The double entries of a table of transactions, in order.
  function Postings(rows: seq<Transaction>): seq<LedgerEntry> {
    if rows == [] then [] else Postings(rows[..|rows| - 1]) + Posting(rows[|rows| - 1])
  }

  lemma NetPosting(row: Transaction, a: nat)
    requires row.senderId != row.receiverId
    ensures Net(Posting(row), a) ==
            if a == row.senderId then -row.amount else if a == row.receiverId then row.amount else 0
  {
    var p := Posting(row);
    assert p[..1][..0] == [];
    assert Net(p[..1], a) == Effect(p[0], a);
  }

  /** Lookups by unique column */

  // The first row with this idempotency key.
  function RowByKey(rows: seq<Transaction>, key: string): (r: Option<Transaction>)
    ensures r.Some? ==> r.value in rows && r.value.key == key
    ensures r.None? <==> forall row :: row in rows ==> row.key != key
  {
    if rows == [] then None
    else if rows[0].key == key then Some(rows[0])
    else
      var rest := RowByKey(rows[1..], key);
      assert forall row :: row in rows <==> row == rows[0] || row in rows[1..];
      rest
  }

  // The account with this number.
  function AccountByNumber(accounts: seq<Account>, number: string): Option<nat> {
    FindIndex(accounts, (a: Account) => a.number == number)
  }
}
